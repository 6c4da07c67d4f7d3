/**
 * The request side of the plugin's delegate: which document a request for
 * a sitemap or newsmap gets (a redirect, a stylesheet, the index of
 * sitemaps, one sitemap file or a 404), the markup of the index of
 * sitemaps, and the merge of a build's metrics into the stored metrics.
 * Headers, redirects and the final output are side effects of WordPress
 * and PHP; the model returns the decision or the text instead.
 */
module Delegate {
  import opened Wrappers
  import opened Text
  import PA = PhpArray
  import opened OptionStore
  import Indexing
  import opened SiteTreeCore
  import OF = OptionFilters

  // ----- the dispatch of a request -----

  /** The query variables the delegate reads and whether WordPress matched one of its rewrite rules. */
  datatype Request = Request(sitetree: string, id: string, paged: Option<string>, didPermalink: bool)

  /**
   * PHP 8's `$paged > 0` for a string: a numeric string is compared as a
   * number; any other string is compared, byte by byte, with the text "0".
   */
  predicate PagedAboveZero(v: string)
  {
    match OF.ParseNumeral(v)
    case Some(n) => OF.NumeralValue(n) > 0.0
    case None => v != [] && (v[0] > '0' || (v[0] == '0' && |v| > 1))
  }

  /** The longest run of digits `s` starts with. */
  function LeadingDigits(s: string): (d: string)
    ensures d <= s && AllDigits(d)
    ensures d == s || !IsDigit(s[|d|])
  {
    if s != [] && IsDigit(s[0]) then [s[0]] + LeadingDigits(s[1..]) else []
  }

  /**
   * `(int)` of a string: a numeric string's whole part; otherwise the
   * integer its leading white space, sign and digits make, 0 without digits.
   */
  function IntCast(v: string): int
  {
    match OF.ParseNumeral(v)
    case Some(n) => OF.Cast(n)
    case None =>
      var t := TrimLeft(v, OF.NumericSpace);
      if t != [] && t[0] == '-' then -(DigitsValue(LeadingDigits(t[1..])) as int)
      else if t != [] && t[0] == '+' then DigitsValue(LeadingDigits(t[1..]))
      else DigitsValue(LeadingDigits(t))
  }

  /** `$paged > 0 ? (int) $paged : 0` for the `paged` query variable, 0 when it is not set. */
  function RequestedNumber(paged: Option<string>): (r: nat)
    ensures paged.None? ==> r == 0
    ensures paged.Some? ==> r as int == if PagedAboveZero(paged.value) then IntCast(paged.value) else 0
  {
    match paged
    case None => 0
    case Some(v) =>
      match OF.ParseNumeral(v)
      case Some(n) =>
        OF.NumeralPositive(n);
        if n.negative then 0 else DigitsValue(n.whole)
      case None =>
        if v != [] && (v[0] > '0' || (v[0] == '0' && |v| > 1)) then
          NotNumericSpace(v[0]);
          OF.TrimLeftKeeps(v, OF.NumericSpace);
          DigitsValue(LeadingDigits(v))
        else 0
  }

  lemma SpaceBelowZero(c: char)
    requires c in OF.NumericSpace
    ensures c < '0'
  {
  }

  lemma NotNumericSpace(c: char)
    requires c >= '0'
    ensures c !in OF.NumericSpace
  {
  }

  /**
   * A text that is not numeric but starts with digits names the file of
   * those digits (`(int)` reads its leading digits).
   */
  lemma LeadingDigitsPaged(d: string, rest: string)
    requires |d| >= 1 && AllDigits(d) && rest != [] && !IsDigit(rest[0])
    requires OF.ParseNumeral(d + rest).None?
    ensures RequestedNumber(Some(d + rest)) == DigitsValue(d)
  {
    var v := d + rest;
    assert v[0] == d[0] && IsDigit(v[0]) && |v| > 1;
    assert v[0] >= '0';
    assert v != [] && (v[0] > '0' || (v[0] == '0' && |v| > 1));
    assert RequestedNumber(Some(v)) == DigitsValue(LeadingDigits(v));
    LeadingDigitsOf(d, rest);
  }

  lemma {:induction false} LeadingDigitsOf(d: string, rest: string)
    requires AllDigits(d) && (rest == [] || !IsDigit(rest[0]))
    ensures LeadingDigits(d + rest) == d
  {
    if d != [] {
      assert (d + rest)[0] == d[0] && (d + rest)[1..] == d[1..] + rest;
      LeadingDigitsOf(d[1..], rest);
    } else {
      assert d + rest == rest;
    }
  }

  /** A text that is not numeric and starts with white space or a sign compares below "0" and reads as 0. */
  lemma SpacedTextPaged(v: string)
    requires v != [] && (v[0] in OF.NumericSpace || v[0] == '-' || v[0] == '+')
    requires OF.ParseNumeral(v).None?
    ensures RequestedNumber(Some(v)) == 0
  {
    if v[0] in OF.NumericSpace {
      SpaceBelowZero(v[0]);
    }
  }

  /** As PHP reads it, `2abc` names file 2. */
  lemma LeadingDigitsReading()
    ensures RequestedNumber(Some("2abc")) == 2
  {
    NotNumeric("2abc");
    assert "2abc" == "2" + "abc";
    LeadingDigitsPaged("2", "abc");
  }

  /** As PHP reads it, ` 2abc` names file 0: it compares below "0". */
  lemma SpacedReading()
    ensures RequestedNumber(Some(" 2abc")) == 0
  {
    NotNumeric("2abc");
    assert " 2abc" == " " + "2abc";
    SpaceIgnored("2abc");
    SpacedTextPaged(" 2abc");
  }

  /** A leading space does not change whether, or as what, a text is numeric. */
  lemma SpaceIgnored(s: string)
    ensures OF.ParseNumeral(" " + s) == OF.ParseNumeral(s)
  {
    OF.TrimLeftSpace(s);
    assert OF.Unpadded(" " + s) == OF.Unpadded(s);
  }

  /** Text without a point that is not all digits is not numeric. */
  lemma NotNumeric(s: string)
    requires s != [] && s[0] !in OF.NumericSpace && s[|s| - 1] !in OF.NumericSpace
    requires s[0] != '-' && s[0] != '+' && '.' !in s && !AllDigits(s)
    ensures OF.Unpadded(s) == s && OF.ParseNumeral(s) == None
  {
    OF.TrimLeftKeeps(s, OF.NumericSpace);
    OF.TrimRightKeeps(s, OF.NumericSpace);
  }

  /** A digit, a point and a digit read as a numeral with a fraction. */
  lemma Fraction(s: string)
    requires |s| == 3 && IsDigit(s[0]) && s[1] == '.' && IsDigit(s[2])
    ensures OF.ParseNumeral(s) == Some(OF.Numeral(false, s[..1], s[2..]))
  {
    OF.TrimLeftKeeps(s, OF.NumericSpace);
    OF.TrimRightKeeps(s, OF.NumericSpace);
    IndexOfAt(s, '.', 1);
  }

  /** What the indexer answers during the dispatch: the total number of sitemaps, `sitemapIDisValid` and `requestedSitemapExists`. */
  datatype Lookups = Lookups(totalSitemaps: int, idIsValid: bool, fileExists: bool)

  datatype Response =
    | NoSitemap
    | Redirect(url: string)
    | ServeStylesheet(partOfCollection: bool)
    | ServeIndexStylesheet
    | ServeIndex
    | ServeSingle(number: nat)
    | NotFound

  /** A request for one of the plugin's two collections. */
  predicate CollectionRequest(r: Request)
  {
    r.sitetree == "sitemap" || r.sitetree == "newsmap"
  }

  /**
   * A request the dispatch answers with a document of a collection: it
   * names an ID other than the stylesheets', and it came through a rewrite
   * rule or there are no permalinks to redirect it to.
   */
  predicate DocumentRequest(r: Request, wp: Wp)
  {
    && CollectionRequest(r)
    && PA.TruthyString(r.id)
    && r.id != "stylesheet" && r.id != "index-stylesheet"
    && (r.didPermalink || !wp.usingPermalinks)
  }

  /**
   * `wpWillSendHeaders`: the document a request gets, row by row of its
   * decision table.
   */
  function Dispatch(r: Request, l: Lookups, o: Options, wp: Wp): (resp: Response)
    ensures resp.NoSitemap? <==> !CollectionRequest(r)
    // a request without an ID is sent to the collection's URL
    ensures CollectionRequest(r) && !PA.TruthyString(r.id) ==> resp == Redirect(SitemapURL(r.sitetree, "", 0, o, wp))
    ensures CollectionRequest(r) && r.id == "stylesheet" ==> resp == ServeStylesheet(l.totalSitemaps > 1)
    ensures CollectionRequest(r) && r.id == "index-stylesheet" ==> resp == ServeIndexStylesheet
    // a query-argument request under permalinks is sent to the collection's permalink
    ensures (CollectionRequest(r) && PA.TruthyString(r.id) && r.id != "stylesheet" && r.id != "index-stylesheet"
             && !r.didPermalink && wp.usingPermalinks) ==> resp == Redirect(SitemapURL(r.sitetree, "", 0, o, wp))
    ensures DocumentRequest(r, wp) && r.id == "index" && RequestedNumber(r.paged) == 0 ==>
      resp == if l.totalSitemaps > 1 then ServeIndex else ServeSingle(0)
    ensures DocumentRequest(r, wp) && !(r.id == "index" && RequestedNumber(r.paged) == 0) && !l.idIsValid ==> resp == NotFound
    // file 1 is sent to the unnumbered file
    ensures (DocumentRequest(r, wp) && !(r.id == "index" && RequestedNumber(r.paged) == 0) && l.idIsValid
             && RequestedNumber(r.paged) == 1) ==> resp == Redirect(SitemapURL(r.sitetree, r.id, 0, o, wp))
    ensures (DocumentRequest(r, wp) && !(r.id == "index" && RequestedNumber(r.paged) == 0) && l.idIsValid
             && RequestedNumber(r.paged) != 1) ==> resp == if l.fileExists then ServeSingle(RequestedNumber(r.paged)) else NotFound
    ensures resp.Redirect? ==> resp.url == SitemapURL(r.sitetree, "", 0, o, wp) || resp.url == SitemapURL(r.sitetree, r.id, 0, o, wp)
    ensures resp.ServeSingle? ==> r.id == "index" || (l.idIsValid && l.fileExists && resp.number != 1)
    ensures resp.ServeIndex? ==> r.id == "index" && l.totalSitemaps > 1
  {
    var slug := r.sitetree;
    if slug != "sitemap" && slug != "newsmap" then NoSitemap
    else if !PA.TruthyString(r.id) then Redirect(SitemapURL(slug, "", 0, o, wp))
    else if r.id == "stylesheet" then ServeStylesheet(l.totalSitemaps > 1)
    else if r.id == "index-stylesheet" then ServeIndexStylesheet
    else if !r.didPermalink && wp.usingPermalinks then Redirect(SitemapURL(slug, "", 0, o, wp))
    else
      var number := RequestedNumber(r.paged);
      if r.id == "index" && number == 0 then
        if l.totalSitemaps > 1 then ServeIndex else ServeSingle(0)
      else if l.idIsValid then
        if number == 1 then Redirect(SitemapURL(slug, r.id, 0, o, wp))
        else if !l.fileExists then NotFound
        else ServeSingle(number)
      else NotFound
  }

  /** The outcome of `sitemapIDisValid` for an ID. */
  predicate ValidId(id: string, q: Indexing.IndexQueries)
  {
    id == "authors" || id in q.publicPostTypes || id in q.publicTaxonomies
  }

  /** The request reaches `buildIndex`: the stylesheet, the index, or a file of a valid ID other than file 1. */
  predicate ConsultsIndex(r: Request, q: Indexing.IndexQueries, wp: Wp)
  {
    && CollectionRequest(r) && PA.TruthyString(r.id)
    && (r.id == "stylesheet"
        || (DocumentRequest(r, wp)
            && ((r.id == "index" && RequestedNumber(r.paged) == 0)
                || (ValidId(r.id, q) && RequestedNumber(r.paged) != 1))))
  }

  /** The request asks `getTotalNumberOfSitemaps`: the stylesheet or the index. */
  predicate NeedsTotal(r: Request, wp: Wp)
  {
    && CollectionRequest(r)
    && (r.id == "stylesheet" || (DocumentRequest(r, wp) && r.id == "index" && RequestedNumber(r.paged) == 0))
  }

  /**
   * `buildIndex` followed by `getTotalNumberOfSitemaps` on a fresh indexer,
   * the path of the stylesheet and of the index.
   */
  method BuildIndexAndTotal(indexer: Indexing.Indexer, store: Store, q: Indexing.IndexQueries) returns (total: int)
    requires indexer.Valid() && indexer.Tallied() == Indexing.Uncounted
    modifies indexer`index, indexer`totalSitemaps, indexer`totalPermalinks, indexer`maxPermalinks, indexer`postTypesList, store`indexes
    ensures total == indexer.totalSitemaps
    ensures var key := indexer.slug + "_index";
      var counted := Indexing.CountAll(Indexing.Uncounted, q, indexer.slug, indexer.maxPermalinksOption);
      if key in old(store.indexes) then
        && indexer.index == Some(old(store.indexes)[key])
        && store.indexes == old(store.indexes)
        && total == PA.SumValues(old(store.indexes)[key])
      else
        && indexer.index == counted.index && indexer.totalPermalinks == counted.permalinks
        && store.indexes == (if counted.index.Some? then old(store.indexes)[key := counted.index.value] else old(store.indexes) - {key})
        && total == Indexing.TotalOf(counted)
    ensures Indexing.DistinctQueries(q) ==> total == PA.SumValues(indexer.index.GetOr([]))
  {
    indexer.BuildIndex(store, q);
    total := indexer.GetTotalNumberOfSitemaps();
    if Indexing.DistinctQueries(q) {
      Indexing.CountedTotalIsSum(q, indexer.slug, indexer.maxPermalinksOption);
    }
  }

  /**
   * `wpWillSendHeaders` with its indexer: the indexer is made for a
   * sitemap or newsmap request with an ID, the index is built only where
   * the total number of sitemaps is needed, and the requested file is
   * looked up only for a valid ID whose number is not 1.
   */
  method WillSendHeaders(r: Request, store: Store, q: Indexing.IndexQueries, maxPermalinksOption: int, o: Options, wp: Wp)
      returns (resp: Response, indexer: Indexing.Indexer?)
    requires maxPermalinksOption > 0
    modifies store`indexes
    ensures indexer != null <==> (r.sitetree == "sitemap" || r.sitetree == "newsmap") && PA.TruthyString(r.id)
    ensures indexer != null ==> fresh(indexer) && indexer.slug == r.sitetree
    ensures indexer == null ==> resp == Dispatch(r, Lookups(0, false, false), o, wp) && store.indexes == old(store.indexes)
    ensures indexer != null ==>
      resp == Dispatch(r, Lookups(indexer.totalSitemaps, ValidId(r.id, q), Indexing.SitemapExistsIn(indexer.index, r.id, indexer.number)), o, wp)
    ensures resp.ServeSingle? ==> indexer != null && indexer.number == resp.number
    ensures indexer != null && DocumentRequest(r, wp) ==> indexer.number == RequestedNumber(r.paged)
    // the index is built only where it is consulted, from the store or by counting
    ensures !ConsultsIndex(r, q, wp) ==> store.indexes == old(store.indexes)
    ensures indexer != null && ConsultsIndex(r, q, wp) ==>
      var key := r.sitetree + "_index";
      var counted := Indexing.CountAll(Indexing.Uncounted, q, r.sitetree, maxPermalinksOption);
      if key in old(store.indexes) then
        && indexer.index == Some(old(store.indexes)[key])
        && store.indexes == old(store.indexes)
      else
        && indexer.index == counted.index && indexer.totalPermalinks == counted.permalinks
        && (!NeedsTotal(r, wp) ==> indexer.totalSitemaps == counted.sitemaps)
        && store.indexes == (if counted.index.Some? then old(store.indexes)[key := counted.index.value] else old(store.indexes) - {key})
    // the total behind the stylesheet and the index is the stored index added up, or the count's total
    ensures indexer != null && NeedsTotal(r, wp) ==>
      var key := r.sitetree + "_index";
      indexer.totalSitemaps ==
        if key in old(store.indexes) then PA.SumValues(old(store.indexes)[key])
        else Indexing.TotalOf(Indexing.CountAll(Indexing.Uncounted, q, r.sitetree, maxPermalinksOption))
    ensures indexer != null && NeedsTotal(r, wp) && Indexing.DistinctQueries(q) ==>
      indexer.totalSitemaps == PA.SumValues(indexer.index.GetOr([]))
  {
    var slug := r.sitetree;
    indexer := null;
    if slug != "sitemap" && slug != "newsmap" {
      return NoSitemap, null;
    }
    if !PA.TruthyString(r.id) {
      return Redirect(SitemapURL(slug, "", 0, o, wp)), null;
    }
    indexer := new Indexing.Indexer(slug, r.id, maxPermalinksOption);
    if r.id == "stylesheet" {
      var total := BuildIndexAndTotal(indexer, store, q);
      return ServeStylesheet(total > 1), indexer;
    }
    if r.id == "index-stylesheet" {
      return ServeIndexStylesheet, indexer;
    }
    if !r.didPermalink && wp.usingPermalinks {
      return Redirect(SitemapURL(slug, "", 0, o, wp)), indexer;
    }
    var number := RequestedNumber(r.paged);
    indexer.SetNumber(number);
    if r.id == "index" && number == 0 {
      var total := BuildIndexAndTotal(indexer, store, q);
      resp := if total > 1 then ServeIndex else ServeSingle(0);
    } else {
      var valid := indexer.SitemapIDIsValid(q.publicPostTypes, q.publicTaxonomies);
      if !valid {
        resp := NotFound;
      } else if number == 1 {
        resp := Redirect(SitemapURL(slug, r.id, 0, o, wp));
      } else {
        var found := indexer.RequestedSitemapExists(store, q);
        resp := if found then ServeSingle(number) else NotFound;
      }
    }
  }

  // ----- requests as the rewrite rules and the query arguments make them -----

  /** The request a rewrite rule's query makes: `paged` is set, possibly empty, and the rule counts as a permalink. */
  function RequestOfQuery(q: Query): Request
  {
    Request(q.sitetree, q.id, Some(q.paged), true)
  }

  /** The request a URL with query arguments makes when no rewrite rule applies. */
  function RequestOfArgs(args: seq<(string, string)>): Request
  {
    Request(PA.Get(args, "sitetree").GetOr(""), PA.Get(args, "id").GetOr(""), PA.Get(args, "paged"), false)
  }

  /** What WordPress reads back from the query arguments of a sitemap URL. */
  lemma ArgsOfQuery(slug: string, id: string, number: int)
    ensures var args := QueryArgs(slug, id, number);
      && PA.Get(args, "sitetree") == Some(slug)
      && PA.Get(args, "id") == (if PA.TruthyString(id) then Some(id) else None)
      && PA.Get(args, "paged") == (if number > 1 then Some(IntToString(number)) else None)
  {
    var idPart: seq<(string, string)> := if PA.TruthyString(id) then [("id", id)] else [];
    var pagedPart: seq<(string, string)> := if number > 1 then [("paged", IntToString(number))] else [];
    assert QueryArgs(slug, id, number) == [("sitetree", slug)] + (idPart + pagedPart);
    assert "sitetree" != "id" && "sitetree" != "paged" && "id" != "paged";
    GetPast("sitetree", slug, idPart + pagedPart, "id");
    GetPast("sitetree", slug, idPart + pagedPart, "paged");
    if number > 1 {
      GetPast("paged", IntToString(number), [], "id");
    }
    if PA.TruthyString(id) {
      GetPast("id", id, pagedPart, "paged");
    } else {
      assert idPart + pagedPart == pagedPart;
    }
  }

  lemma GetPast(k: string, v: string, rest: seq<(string, string)>, key: string)
    requires k != key
    ensures PA.Get([(k, v)] + rest, key) == PA.Get(rest, key)
  {
    assert ([(k, v)] + rest)[1..] == rest;
  }

  /** The number the indexer is given for the request of file `i` of a sitemap: 0 for the unnumbered file. */
  function FileNumber(i: int): nat
  {
    if i > 1 then i else 0
  }

  lemma RequestedNumberOfFile(i: int)
    ensures RequestedNumber(Some(PagedOf(i))) == FileNumber(i)
    ensures i > 1 ==> RequestedNumber(Some(IntToString(i))) == i
  {
    if i > 1 {
      var d := NatToString(i);
      assert IntToString(i) == d;
      assert OF.Pad(false) + d == d;
      OF.ParseDigits(false, d);
      DigitsValueOfNatToString(i);
    } else {
      assert PagedOf(i) == "";
      assert OF.ParseNumeral("") == None;
    }
  }

  /** IDs that the dispatch reads as a document of its own rather than as a content type. */
  predicate ReservedId(id: string)
  {
    id == "index" || id == "stylesheet" || id == "index-stylesheet"
  }

  /** The conditions under which the rewrite rules route the files of `id` back to their query. */
  predicate FilesRouted(o: Options, slug: string, id: string)
  {
    var f := GetSitemapFilename(o);
    && IsId(id)
    && (slug == "sitemap" ==> IsSitemapActive(o, "sitemap") && (IsSitemapActive(o, "newsmap") ==> id != "news" && !StartsWith(f, "news")))
    && (slug == "newsmap" ==> IsSitemapActive(o, "newsmap") && (IsSitemapActive(o, "sitemap") ==> f != NewsmapName))
  }

  /** The conditions under which the rewrite rules route the unnumbered index path back to the index. */
  predicate IndexRouted(o: Options, slug: string)
  {
    && (slug == "sitemap" ==> IsSitemapActive(o, "sitemap") && (IsSitemapActive(o, "newsmap") ==> '-' !in GetSitemapFilename(o)))
    && (slug == "newsmap" ==> IsSitemapActive(o, "newsmap") && (IsSitemapActive(o, "sitemap") ==> GetSitemapFilename(o) != NewsmapName))
  }

  lemma FileRoute(o: Options, slug: string, id: string, i: int)
    requires (slug == "sitemap" || slug == "newsmap") && FilesRouted(o, slug, id)
    ensures Route(RulesOf(o), SitemapPath(slug, id, i, GetSitemapFilename(o))) == Some(Query(slug, id, PagedOf(i)))
  {
    if slug == "sitemap" {
      SitemapFileRoundTrip(o, id, i);
    } else {
      NewsmapFileRoundTrip(o, id, i);
    }
  }

  /**
   * Under a permalink structure, every file the index lists for a valid
   * content type is served: its URL is routed back to its ID and number,
   * and the dispatch serves that file.
   */
  lemma ListedFileServed(o: Options, wp: Wp, slug: string, index: Index, id: string, i: int, l: Lookups)
    requires wp.usingPermalinks && (slug == "sitemap" || slug == "newsmap")
    requires FilesRouted(o, slug, id) && !ReservedId(id)
    requires PA.Get(index, id).Some? && 1 <= i <= PA.Get(index, id).value
    requires l.idIsValid && l.fileExists == Indexing.SitemapExistsIn(Some(index), id, FileNumber(i))
    ensures SitemapURL(slug, id, i, o, wp) == wp.homeUrl("/" + SitemapPath(slug, id, i, GetSitemapFilename(o)))
    ensures Route(RulesOf(o), SitemapPath(slug, id, i, GetSitemapFilename(o))) == Some(Query(slug, id, PagedOf(i)))
    ensures Dispatch(RequestOfQuery(Query(slug, id, PagedOf(i))), l, o, wp) == ServeSingle(FileNumber(i))
  {
    FileRoute(o, slug, id, i);
    IdHasNoDash(id);
    RequestedNumberOfFile(i);
    assert Indexing.SitemapExistsIn(Some(index), id, FileNumber(i));
    FileServed(RequestOfQuery(Query(slug, id, PagedOf(i))), l, o, wp, FileNumber(i));
  }

  /**
   * Under a permalink structure the redirect to the index lands on a
   * document: the root path is routed to the index, which is served.
   */
  lemma IndexRedirectSettles(o: Options, wp: Wp, slug: string, l: Lookups)
    requires wp.usingPermalinks && (slug == "sitemap" || slug == "newsmap") && IndexRouted(o, slug)
    ensures SitemapURL(slug, "", 0, o, wp) == wp.homeUrl("/" + SitemapPath(slug, "", 0, GetSitemapFilename(o)))
    ensures Route(RulesOf(o), SitemapPath(slug, "", 0, GetSitemapFilename(o))) == Some(Query(slug, "index", ""))
    ensures Dispatch(RequestOfQuery(Query(slug, "index", "")), l, o, wp) == if l.totalSitemaps > 1 then ServeIndex else ServeSingle(0)
  {
    if slug == "sitemap" {
      SitemapIndexRoundTrip(o);
    } else {
      NewsmapIndexRoundTrip(o);
    }
    assert RequestedNumber(Some("")) == 0;
  }

  /**
   * Under a permalink structure the redirect of file 1 to the unnumbered
   * file lands on a document: the unnumbered path is routed to number 0,
   * which is served or not found but not redirected again.
   */
  lemma FileRedirectSettles(o: Options, wp: Wp, slug: string, id: string, l: Lookups)
    requires wp.usingPermalinks && (slug == "sitemap" || slug == "newsmap")
    requires FilesRouted(o, slug, id) && !ReservedId(id)
    ensures SitemapURL(slug, id, 0, o, wp) == wp.homeUrl("/" + SitemapPath(slug, id, 0, GetSitemapFilename(o)))
    ensures Route(RulesOf(o), SitemapPath(slug, id, 0, GetSitemapFilename(o))) == Some(Query(slug, id, ""))
    ensures Dispatch(RequestOfQuery(Query(slug, id, "")), l, o, wp) == if l.idIsValid && l.fileExists then ServeSingle(0) else NotFound
  {
    FileRoute(o, slug, id, 0);
    IdHasNoDash(id);
    assert RequestedNumber(Some("")) == 0;
  }

  // ----- finding: the plain index URL redirects to itself -----

  /**
   * As written, without a permalink structure the index URL carries no
   * `id` argument, and a request without an ID is redirected to the index
   * URL: the request is redirected to the URL it came from.
   */
  lemma PlainIndexRedirectsToItself(o: Options, wp: Wp, slug: string, l: Lookups)
    requires !wp.usingPermalinks && (slug == "sitemap" || slug == "newsmap")
    ensures SitemapURL(slug, "", 0, o, wp) == wp.addQueryArgs(QueryArgs(slug, "", 0), wp.homeUrl("/"))
    ensures Dispatch(RequestOfArgs(QueryArgs(slug, "", 0)), l, o, wp) == Redirect(SitemapURL(slug, "", 0, o, wp))
  {
    ArgsOfQuery(slug, "", 0);
  }

  /** The corrected query arguments: the index is named by `id=index`, as its rewrite rule names it. */
  function CorrectedQueryArgs(slug: string, id: string, number: int): seq<(string, string)>
  {
    QueryArgs(slug, if PA.TruthyString(id) then id else "index", number)
  }

  /** `sitemapURL` with the corrected query arguments. */
  function CorrectedSitemapURL(slug: string, id: string, number: int, o: Options, wp: Wp): (url: string)
    ensures wp.usingPermalinks || PA.TruthyString(id) || (slug != "sitemap" && slug != "newsmap")
            ==> url == SitemapURL(slug, id, number, o, wp)
  {
    if (slug == "sitemap" || slug == "newsmap") && !wp.usingPermalinks then
      wp.addQueryArgs(CorrectedQueryArgs(slug, id, number), wp.homeUrl("/"))
    else SitemapURL(slug, id, number, o, wp)
  }

  /** With the corrected arguments, the plain index URL is served: as the index, or as the only sitemap. */
  lemma CorrectedPlainIndexServed(wp: Wp, slug: string, l: Lookups, o: Options)
    requires !wp.usingPermalinks && (slug == "sitemap" || slug == "newsmap")
    ensures Dispatch(RequestOfArgs(CorrectedQueryArgs(slug, "", 0)), l, o, wp) == if l.totalSitemaps > 1 then ServeIndex else ServeSingle(0)
  {
    ArgsOfQuery(slug, "index", 0);
  }

  /** Without permalinks, every file the index lists for a valid content type is served from its query arguments. */
  lemma PlainListedFileServed(o: Options, wp: Wp, slug: string, index: Index, id: string, i: int, l: Lookups)
    requires !wp.usingPermalinks && (slug == "sitemap" || slug == "newsmap")
    requires PA.TruthyString(id) && !ReservedId(id)
    requires PA.Get(index, id).Some? && 1 <= i <= PA.Get(index, id).value
    requires l.idIsValid && l.fileExists == Indexing.SitemapExistsIn(Some(index), id, FileNumber(i))
    ensures CorrectedSitemapURL(slug, id, i, o, wp) == SitemapURL(slug, id, i, o, wp) == wp.addQueryArgs(QueryArgs(slug, id, i), wp.homeUrl("/"))
    ensures Dispatch(RequestOfArgs(QueryArgs(slug, id, i)), l, o, wp) == ServeSingle(FileNumber(i))
  {
    PlainFileRequest(slug, id, i);
    assert Indexing.SitemapExistsIn(Some(index), id, FileNumber(i));
    FileServed(RequestOfArgs(QueryArgs(slug, id, i)), l, o, wp, FileNumber(i));
  }

  /** The request the query arguments of file `i` make names the slug, the ID and the file's number. */
  lemma PlainFileRequest(slug: string, id: string, i: int)
    requires PA.TruthyString(id)
    ensures var r := RequestOfArgs(QueryArgs(slug, id, i));
      r.sitetree == slug && r.id == id && RequestedNumber(r.paged) == FileNumber(i)
  {
    ArgsOfQuery(slug, id, i);
    RequestedNumberOfFile(i);
  }

  /** A document request for a valid ID and an existing file other than 1 is served that file. */
  lemma FileServed(r: Request, l: Lookups, o: Options, wp: Wp, n: nat)
    requires DocumentRequest(r, wp) && !ReservedId(r.id)
    requires RequestedNumber(r.paged) == n && n != 1
    requires l.idIsValid && l.fileExists
    ensures Dispatch(r, l, o, wp) == ServeSingle(n)
  {
  }

  // ----- the index of sitemaps -----

  /** The URLs of files `1..n` of sitemap `id`, in order. */
  function FileURLs(slug: string, id: string, n: int, o: Options, wp: Wp): (urls: seq<string>)
    ensures |urls| == if n > 0 then n else 0
    decreases if n > 0 then n else 0
  {
    if n <= 0 then [] else FileURLs(slug, id, n - 1, o, wp) + [SitemapURL(slug, id, n, o, wp)]
  }

  /** The URLs the index lists: for each content type in index order, its files in order. */
  function IndexURLs(index: Index, slug: string, o: Options, wp: Wp): seq<string>
  {
    if index == [] then []
    else
      var last := index[|index| - 1];
      IndexURLs(index[..|index| - 1], slug, o, wp) + FileURLs(slug, last.0, last.1, o, wp)
  }

  /** The number of files the index counts: the sum of its positive file counts. */
  function ListedCount(index: Index): nat
  {
    if index == [] then 0
    else
      var n := index[|index| - 1].1;
      ListedCount(index[..|index| - 1]) + (if n > 0 then n else 0)
  }

  /** The index lists one URL per counted file. */
  lemma {:induction false} IndexURLsCount(index: Index, slug: string, o: Options, wp: Wp)
    ensures |IndexURLs(index, slug, o, wp)| == ListedCount(index)
  {
    if index != [] {
      IndexURLsCount(index[..|index| - 1], slug, o, wp);
    }
  }

  lemma {:induction false} FileURLsAt(slug: string, id: string, n: int, i: int, o: Options, wp: Wp)
    requires 1 <= i <= n
    ensures FileURLs(slug, id, n, o, wp)[i - 1] == SitemapURL(slug, id, i, o, wp)
    decreases n
  {
    if i < n {
      FileURLsAt(slug, id, n - 1, i, o, wp);
    }
  }

  /** Every file `1..n` of every content type of the index is listed. */
  lemma {:induction false} IndexListsEveryFile(index: Index, slug: string, o: Options, wp: Wp, k: nat, i: int)
    requires k < |index| && 1 <= i <= index[k].1
    ensures SitemapURL(slug, index[k].0, i, o, wp) in IndexURLs(index, slug, o, wp)
    decreases |index|
  {
    var front := index[..|index| - 1];
    if k == |index| - 1 {
      FileURLsAt(slug, index[k].0, index[k].1, i, o, wp);
    } else {
      assert front[k] == index[k];
      IndexListsEveryFile(front, slug, o, wp, k, i);
    }
  }

  /** Every listed URL is that of a file `1..n` of a content type of the index. */
  lemma {:induction false} IndexListsOnlyFiles(index: Index, slug: string, o: Options, wp: Wp, url: string)
    requires url in IndexURLs(index, slug, o, wp)
    ensures exists k, i :: 0 <= k < |index| && 1 <= i <= index[k].1 && url == SitemapURL(slug, index[k].0, i, o, wp)
    decreases |index|
  {
    var front := index[..|index| - 1];
    var last := index[|index| - 1];
    if url in IndexURLs(front, slug, o, wp) {
      IndexListsOnlyFiles(front, slug, o, wp, url);
      var k, i :| 0 <= k < |front| && 1 <= i <= front[k].1 && url == SitemapURL(slug, front[k].0, i, o, wp);
      assert index[k] == front[k];
    } else {
      var j :| 0 <= j < |FileURLs(slug, last.0, last.1, o, wp)| && FileURLs(slug, last.0, last.1, o, wp)[j] == url;
      FileURLsAt(slug, last.0, last.1, j + 1, o, wp);
      assert url == SitemapURL(slug, index[|index| - 1].0, j + 1, o, wp);
    }
  }

  /** One `<sitemap>` entry of the index. */
  function SitemapEntry(url: string, linebreak: string): string
  {
    "<sitemap>" + linebreak + "<loc>" + url + "</loc>" + linebreak + "</sitemap>" + linebreak
  }

  /** The entries of a list of URLs, in order. */
  function Entries(urls: seq<string>, linebreak: string): string
  {
    if urls == [] then "" else Entries(urls[..|urls| - 1], linebreak) + SitemapEntry(urls[|urls| - 1], linebreak)
  }

  /** Appending one entry to markup that ends with the entries of `urls`. */
  lemma EntriesAppend(header: string, urls: seq<string>, url: string, linebreak: string)
    ensures header + Entries(urls, linebreak) + SitemapEntry(url, linebreak) == header + Entries(urls + [url], linebreak)
  {
    assert (urls + [url])[..|urls|] == urls;
  }

  /** The entry of file `i` extends the entries of the files before it. */
  lemma FileEntryStep(header: string, before: seq<string>, slug: string, id: string, i: int, o: Options, wp: Wp, linebreak: string)
    requires i >= 1
    ensures header + Entries(before + FileURLs(slug, id, i - 1, o, wp), linebreak) + SitemapEntry(SitemapURL(slug, id, i, o, wp), linebreak)
         == header + Entries(before + FileURLs(slug, id, i, o, wp), linebreak)
  {
    var listed := before + FileURLs(slug, id, i - 1, o, wp);
    var url := SitemapURL(slug, id, i, o, wp);
    EntriesAppend(header, listed, url, linebreak);
    assert before + FileURLs(slug, id, i, o, wp) == listed + [url];
  }

  /** Once the inner loop has listed the files of entry `k`, the outer loop's markup covers `index[..k + 1]`. */
  lemma IndexURLsStep(index: Index, k: nat, slug: string, o: Options, wp: Wp, i: int)
    requires k < |index| && i >= 1 && (index[k].1 >= 1 ==> i == index[k].1 + 1) && (index[k].1 < 1 ==> i == 1)
    ensures IndexURLs(index[..k + 1], slug, o, wp) == IndexURLs(index[..k], slug, o, wp) + FileURLs(slug, index[k].0, i - 1, o, wp)
  {
    assert index[..k + 1][..k] == index[..k];
  }

  /** The XML declaration, the stylesheet of the index, the generator comment and the opening tag. */
  function IndexHeader(slug: string, version: string, pluginURI: string, wp: Wp): string
  {
    "<?xml version=\"1.0\" encoding=\"UTF-8\"?>\n"
      + "<?xml-stylesheet type=\"text/xsl\" href=\"" + wp.homeUrl("/" + slug + "-index-template.xsl")
      + "?ver=" + version + "\"?>\n"
      + "<!-- Sitemap Index generated by SiteTree " + version + " (" + pluginURI + ") -->\n"
      + "<sitemapindex xmlns=\"http://www.sitemaps.org/schemas/sitemap/0.9\">\n"
  }

  /**
   * `serveSitemapIndex`'s markup: one entry for each file of each content
   * type, in index order and file order. The line break between the parts
   * of an entry is empty unless `WP_DEBUG` is set.
   */
  method ServeSitemapIndex(index: Index, slug: string, o: Options, wp: Wp, wpDebug: bool, version: string, pluginURI: string)
      returns (markup: string)
    ensures markup == IndexHeader(slug, version, pluginURI, wp)
                      + Entries(IndexURLs(index, slug, o, wp), if wpDebug then "\n" else "") + "</sitemapindex>"
  {
    var linebreak := if wpDebug then "\n" else "";
    var header := IndexHeader(slug, version, pluginURI, wp);
    markup := header;
    var k := 0;
    while k < |index|
      invariant 0 <= k <= |index|
      invariant markup == header + Entries(IndexURLs(index[..k], slug, o, wp), linebreak)
    {
      var id := index[k].0;
      var n := index[k].1;
      ghost var before := IndexURLs(index[..k], slug, o, wp);
      assert before + FileURLs(slug, id, 0, o, wp) == before;
      var i := 1;
      while i <= n
        invariant 1 <= i && (n >= 1 ==> i <= n + 1) && (n < 1 ==> i == 1)
        invariant markup == header + Entries(before + FileURLs(slug, id, i - 1, o, wp), linebreak)
      {
        var url := SitemapURL(slug, id, i, o, wp);
        FileEntryStep(header, before, slug, id, i, o, wp, linebreak);
        markup := markup + SitemapEntry(url, linebreak);
        i := i + 1;
      }
      IndexURLsStep(index, k, slug, o, wp, i);
      k := k + 1;
    }
    assert index[..k] == index;
    markup := markup + "</sitemapindex>";
  }
}
