/**
 * The sitemap builder: the counters and capacity every builder keeps, the
 * Google sitemap settings, and the sitemap itself, which queries one window
 * of content and serialises each item as a `<url>` element with its images.
 */
module Builders {
  import opened Wrappers
  import opened Text
  import PA = PhpArray
  import opened Images
  import GS = GoogleSitemap
  import Indexing

  /** The Image Sitemap schema's limit of images per `<url>` element. */
  const ImagesPerUrlElement: int := 1000
  const HourInSeconds: int := 3600
  /** `prepareAttribute`'s default maximum length, used for titles. */
  const TitleLength: nat := 70
  const CaptionLength: nat := 160

  /** A lastmod argument: a date string or a timestamp. */
  datatype Lastmod = Date(s: string) | Stamp(t: int)

  /** PHP's truthiness of a lastmod argument. */
  predicate LastmodIsSet(l: Lastmod)
  {
    match l
    case Date(s) => PA.TruthyString(s)
    case Stamp(t) => t != 0
  }

  /** The columns of a post row that the builder reads. */
  datatype Post = Post(ID: int, name: string, modified: string, postType: string)
  datatype Author = Author(ID: int, nicename: string, lastPostModified: string)
  datatype Term = Term(termID: int, lastModified: string)

  /** An entry of the images argument; entries that are not image elements are skipped. */
  datatype ImageEntry = Image(img: ImageElement) | NotAnImage

  /** What an emitted image shows: its resolved URL, its title and its caption. */
  datatype ImageData = ImageData(url: string, title: string, caption: string)

  /**
   * The WordPress functions and options the builder consults. `strtotime`
   * and `filemtime` yield 0 where PHP yields `false`, `locateTemplate`
   * yields "" when no template exists.
   */
  datatype Wp = Wp(
    escUrl: string -> string,
    permalink: Post -> string,
    homeUrl: string,
    strtotime: string -> int,
    gmdate: int -> string,
    locateTemplate: seq<string> -> string,
    filemtime: string -> int,
    htmlDecode: string -> string,
    stripTags: string -> string,
    htmlSpecialChars: string -> string,
    authorPostsUrl: (int, string) -> string,
    termLink: int -> string,
    getPost: int -> Post,
    lastPostModified: string,
    frontPageID: int,
    blogPageID: int,
    attachmentUrl: int -> string)

  /**
   * The full result tables of the builder's queries, already filtered and
   * in their ORDER BY order; the builder reads one LIMIT/OFFSET window.
   * `attachments` are the image attachments of all posts.
   */
  datatype Tables = Tables(posts: seq<Post>, attachments: seq<Attachment>, authors: seq<Author>, terms: seq<Term>)

  /** `queriedPosts`: post type, then post ID, then the post. */
  type QueriedPosts = seq<(string, seq<(int, Post)>)>
  /** `queriedImages`: parent post ID, then its images in query order. */
  type QueriedImages = seq<(int, seq<ImageElement>)>

  /** A `<url>` element as a reader of the sitemap sees it: its location, its lastmod argument and what its images show. */
  datatype UrlElement = UrlElement(loc: string, lastmod: Lastmod, images: seq<ImageData>)

  /** The image elements among the entries, in order. */
  function ImagesOf(entries: seq<ImageEntry>): seq<ImageElement>
  {
    if entries == [] then []
    else ImagesOf(entries[..|entries| - 1]) + (if entries[|entries| - 1].Image? then [entries[|entries| - 1].img] else [])
  }

  lemma {:induction false} ImagesOfAppend(a: seq<ImageEntry>, b: seq<ImageEntry>)
    ensures ImagesOf(a + b) == ImagesOf(a) + ImagesOf(b)
    decreases |b|
  {
    if b == [] {
      assert a + b == a;
    } else {
      var b' := b[..|b| - 1];
      assert (a + b)[..|a + b| - 1] == a + b';
      ImagesOfAppend(a, b');
    }
  }

  lemma ImagesOfStep(entries: seq<ImageEntry>, i: nat)
    requires i < |entries|
    ensures entries[i].Image? ==> ImagesOf(entries[..i + 1]) == ImagesOf(entries[..i]) + [entries[i].img]
    ensures !entries[i].Image? ==> ImagesOf(entries[..i + 1]) == ImagesOf(entries[..i])
  {
    assert entries[..i + 1][..i] == entries[..i];
  }

  /** While fewer than 1000 images are found, the next one is among those `Emitted` keeps. */
  lemma EmittedGrows(entries: seq<ImageEntry>, i: nat)
    requires i < |entries| && entries[i].Image? && |ImagesOf(entries[..i])| < ImagesPerUrlElement
    ensures ImagesOf(entries[..i + 1]) <= Emitted(entries)
  {
    ImagesOfStep(entries, i);
    ImagesOfAppend(entries[..i + 1], entries[i + 1..]);
    assert entries[..i + 1] + entries[i + 1..] == entries;
  }

  lemma WholePrefix<T>(s: seq<T>, n: int)
    requires n == |s|
    ensures s[..n] == s
  {
  }

  /** Once 1000 images are found, they are those `Emitted` keeps. */
  lemma EmittedIsPrefix(entries: seq<ImageEntry>, i: nat)
    requires i <= |entries| && |ImagesOf(entries[..i])| == ImagesPerUrlElement
    ensures Emitted(entries) == ImagesOf(entries[..i])
  {
    ImagesOfAppend(entries[..i], entries[i..]);
    assert entries[..i] + entries[i..] == entries;
  }

  /** The images `buildURLElement` emits: the first 1000 image elements. */
  function Emitted(entries: seq<ImageEntry>): (r: seq<ImageElement>)
    ensures |r| == if |ImagesOf(entries)| <= ImagesPerUrlElement then |ImagesOf(entries)| else ImagesPerUrlElement
    ensures r <= ImagesOf(entries)
  {
    var all := ImagesOf(entries);
    if |all| <= ImagesPerUrlElement then all else all[..ImagesPerUrlElement]
  }

  function Entries(imgs: seq<ImageElement>): (r: seq<ImageEntry>)
    ensures |r| == |imgs| && forall k :: 0 <= k < |imgs| ==> r[k] == Image(imgs[k])
  {
    if imgs == [] then [] else Entries(imgs[..|imgs| - 1]) + [Image(imgs[|imgs| - 1])]
  }

  /** `isset($this->queriedImages[$id])`, or no images. */
  function ImagesFor(qi: QueriedImages, id: int): seq<ImageEntry>
  {
    Entries(PA.Get(qi, id).GetOr([]))
  }

  lemma NoImages()
    ensures Emitted([]) == [] && DataOf([]) == []
  {
    assert ImagesOf([]) == [];
  }

  function DataOf(imgs: seq<ImageElement>): (ds: seq<ImageData>)
    ensures |ds| == |imgs|
  {
    if imgs == [] then []
    else
      var last := imgs[|imgs| - 1];
      DataOf(imgs[..|imgs| - 1]) + [ImageData(last.ResolvedUrl(), last.title, last.caption)]
  }

  /** The data of the k-th image is what that image shows. */
  lemma {:induction false} DataOfAt(imgs: seq<ImageElement>, k: nat)
    requires k < |imgs|
    ensures DataOf(imgs)[k] == ImageData(imgs[k].ResolvedUrl(), imgs[k].title, imgs[k].caption)
    decreases |imgs|
  {
    if k < |imgs| - 1 {
      DataOfAt(imgs[..|imgs| - 1], k);
    }
  }

  /** The image blocks of `ds` in order, each as `text` renders it. */
  function Rendered(ds: seq<ImageData>, text: ImageData -> string): string
  {
    if ds == [] then "" else Rendered(ds[..|ds| - 1], text) + text(ds[|ds| - 1])
  }

  lemma RenderedStep(ds: seq<ImageData>, text: ImageData -> string, n: nat)
    requires n < |ds|
    ensures Rendered(ds[..n + 1], text) == Rendered(ds[..n], text) + text(ds[n])
  {
    assert ds[..n + 1][..n] == ds[..n];
  }

  /**
   * The image loop of `buildURLElement`: a block for each image element,
   * with its resolved URL, up to 1000 of them; `text` renders one block.
   */
  method ImageBlocksOf(images: seq<ImageEntry>, ghost data: seq<ImageData>, text: ImageData -> string) returns (blocks: string, count: int)
    requires data == DataOf(Emitted(images))
    ensures blocks == Rendered(data, text)
    ensures count == |Emitted(images)| <= ImagesPerUrlElement
  {
    assert |data| == |Emitted(images)|;
    blocks := "";
    count := 0;
    var i := 0;
    while i < |images|
      invariant 0 <= i <= |images|
      invariant count == |ImagesOf(images[..i])| < ImagesPerUrlElement
      invariant count <= |data|
      invariant blocks == Rendered(data[..count], text)
    {
      if images[i].Image? {
        var img := images[i].img;
        var d := ImageData(img.ResolvedUrl(), img.title, img.caption);
        ImageLoopStep(images, i);
        DataOfAt(Emitted(images), count);
        RenderedStep(data, text, count);
        blocks := blocks + text(d);
        count := count + 1;
        i := i + 1;
        if count >= ImagesPerUrlElement {
          break;
        }
      } else {
        ImagesOfStep(images, i);
        i := i + 1;
      }
    }
    ImageLoopEnd(images, i, count);
    WholePrefix(data, count);
  }

  /** The image branch of the loop: the next image is the next one emitted. */
  lemma ImageLoopStep(images: seq<ImageEntry>, i: nat)
    requires i < |images| && images[i].Image? && |ImagesOf(images[..i])| < ImagesPerUrlElement
    ensures ImagesOf(images[..i + 1]) == ImagesOf(images[..i]) + [images[i].img]
    ensures |ImagesOf(images[..i])| < |Emitted(images)|
    ensures Emitted(images)[|ImagesOf(images[..i])|] == images[i].img
  {
    ImagesOfStep(images, i);
    EmittedGrows(images, i);
  }

  /** After the loop: every emitted image was met. */
  lemma ImageLoopEnd(images: seq<ImageEntry>, i: nat, count: int)
    requires i <= |images| && count == |ImagesOf(images[..i])| <= ImagesPerUrlElement
    requires i < |images| ==> count == ImagesPerUrlElement
    ensures count == |Emitted(images)|
  {
    if i == |images| {
      WholePrefix(images, i);
    } else {
      EmittedIsPrefix(images, i);
    }
  }

  /** `$this->queriedPosts[$post->post_type][$post->ID] = $post`. */
  function PutPost(qp: QueriedPosts, p: Post): QueriedPosts
  {
    PA.RawSet(qp, p.postType, PA.RawSet(PA.Get(qp, p.postType).GetOr([]), p.ID, p))
  }

  /** The queried posts after storing `rows` in order. */
  function Grouped(qp: QueriedPosts, rows: seq<Post>): QueriedPosts
  {
    if rows == [] then qp else PutPost(Grouped(qp, rows[..|rows| - 1]), rows[|rows| - 1])
  }

  function IDs(rows: seq<Post>): (ids: seq<int>)
    ensures |ids| == |rows| && forall k :: 0 <= k < |rows| ==> ids[k] == rows[k].ID
  {
    if rows == [] then [] else IDs(rows[..|rows| - 1]) + [rows[|rows| - 1].ID]
  }

  /** Every queried post can be found under its type and ID, and what is found there is a post of that type and ID. */
  lemma {:induction false} GroupedFindsEveryRow(rows: seq<Post>, k: nat)
    requires k < |rows|
    ensures PA.Get(Grouped([], rows), rows[k].postType).Some?
    ensures var found := PA.Get(PA.Get(Grouped([], rows), rows[k].postType).value, rows[k].ID);
      found.Some? && found.value.ID == rows[k].ID && found.value.postType == rows[k].postType
    decreases |rows|
  {
    var init := rows[..|rows| - 1];
    var last := rows[|rows| - 1];
    var g := Grouped([], init);
    var inner := PA.Get(g, last.postType).GetOr([]);
    var inner' := PA.RawSet(inner, last.ID, last);
    assert Grouped([], rows) == PA.RawSet(g, last.postType, inner');
    PA.SetGet(g, last.postType, inner');
    if k == |rows| - 1 {
      PA.SetGet(inner, last.ID, last);
    } else {
      assert init[k] == rows[k];
      GroupedFindsEveryRow(init, k);
      if last.postType != rows[k].postType {
        PA.SetGetOther(g, last.postType, inner', rows[k].postType);
      } else if last.ID == rows[k].ID {
        PA.SetGet(inner, last.ID, last);
      } else {
        PA.SetGetOther(inner, last.ID, last, rows[k].ID);
      }
    }
  }

  /** The attachments of the queried posts, as `post_parent IN (ids)` selects them. */
  function Selected(attachments: seq<Attachment>, ids: seq<int>): seq<Attachment>
  {
    if attachments == [] then []
    else
      var init := Selected(attachments[..|attachments| - 1], ids);
      var last := attachments[|attachments| - 1];
      if last.parent in ids then init + [last] else init
  }

  /** The attachments whose parent is `id`, in order. */
  function Children(attachments: seq<Attachment>, id: int): seq<Attachment>
  {
    if attachments == [] then []
    else
      var init := Children(attachments[..|attachments| - 1], id);
      var last := attachments[|attachments| - 1];
      if last.parent == id then init + [last] else init
  }

  /** The caption `makeFromAttachment` gives. */
  function AttachmentCaption(a: Attachment): string
  {
    if PA.TruthyString(a.excerpt) then a.excerpt else a.content
  }

  /** The images were made, in order, from these attachments. */
  predicate MadeFrom(imgs: seq<ImageElement>, rows: seq<Attachment>)
  {
    && |imgs| == |rows|
    && forall j :: 0 <= j < |imgs| ==>
         imgs[j].ID == rows[j].ID && imgs[j].title == rows[j].title && imgs[j].caption == AttachmentCaption(rows[j])
  }

  /** What the builder shows of an image made from an attachment: the URL `url()` resolves to, the title and the caption. */
  function AttachmentData(a: Attachment, attachmentUrl: int -> string): ImageData
  {
    ImageData(if a.ID != 0 then attachmentUrl(a.ID) else "", a.title, AttachmentCaption(a))
  }

  function AttachmentsData(rows: seq<Attachment>, attachmentUrl: int -> string): (ds: seq<ImageData>)
    ensures |ds| == |rows|
  {
    if rows == [] then []
    else AttachmentsData(rows[..|rows| - 1], attachmentUrl) + [AttachmentData(rows[|rows| - 1], attachmentUrl)]
  }

  lemma {:induction false} AttachmentsDataAt(rows: seq<Attachment>, attachmentUrl: int -> string, k: nat)
    requires k < |rows|
    ensures AttachmentsData(rows, attachmentUrl)[k] == AttachmentData(rows[k], attachmentUrl)
    decreases |rows|
  {
    if k < |rows| - 1 {
      AttachmentsDataAt(rows[..|rows| - 1], attachmentUrl, k);
    }
  }

  /** What a `<url>` element shows of a post's image attachments: the first 1000, in query order. */
  function ShownData(rows: seq<Attachment>, attachmentUrl: int -> string): seq<ImageData>
  {
    AttachmentsData(if |rows| <= ImagesPerUrlElement then rows else rows[..ImagesPerUrlElement], attachmentUrl)
  }

  /** The images were made, in order, from these attachments, and resolve to their attachments' URLs. */
  predicate Shows(imgs: seq<ImageElement>, rows: seq<Attachment>, attachmentUrl: int -> string)
  {
    && MadeFrom(imgs, rows)
    && forall j :: 0 <= j < |imgs| ==> imgs[j].ResolvedUrl() == AttachmentData(rows[j], attachmentUrl).url
  }

  lemma {:induction false} ImagesOfEntries(imgs: seq<ImageElement>)
    ensures ImagesOf(Entries(imgs)) == imgs
  {
    if imgs != [] {
      var init := imgs[..|imgs| - 1];
      var es := Entries(imgs);
      assert es == Entries(init) + [Image(imgs[|imgs| - 1])];
      assert es[..|es| - 1] == Entries(init);
      ImagesOfEntries(init);
    }
  }

  /** The images a post's `<url>` element emits show what its attachments say. */
  lemma ShowsData(imgs: seq<ImageElement>, rows: seq<Attachment>, attachmentUrl: int -> string)
    requires Shows(imgs, rows, attachmentUrl)
    ensures DataOf(Emitted(Entries(imgs))) == ShownData(rows, attachmentUrl)
  {
    ImagesOfEntries(imgs);
    var e := Emitted(Entries(imgs));
    var r := if |rows| <= ImagesPerUrlElement then rows else rows[..ImagesPerUrlElement];
    assert |e| == |r|;
    forall k | 0 <= k < |e|
      ensures DataOf(e)[k] == ShownData(rows, attachmentUrl)[k]
    {
      assert e[k] == imgs[k] && r[k] == rows[k];
      DataOfAt(e, k);
      AttachmentsDataAt(r, attachmentUrl, k);
    }
  }

  /** `$this->queriedImages[$post_id][] = $image`. */
  function AddImage(qi: QueriedImages, id: int, img: ImageElement): QueriedImages
  {
    PA.RawSet(qi, id, PA.Get(qi, id).GetOr([]) + [img])
  }

  /** The `page` group of the queried posts. */
  function Pages(qp: QueriedPosts): seq<(int, Post)>
  {
    PA.Get(qp, "page").GetOr([])
  }

  /** `unset($this->queriedPosts['page'][$id])`, which does nothing when there is no `page` group. */
  function UnsetPage(qp: QueriedPosts, id: int): (r: QueriedPosts)
    ensures PA.Get(Pages(r), id) == None
  {
    match PA.Get(qp, "page")
    case None => qp
    case Some(pages) =>
      PA.UnsetFacts(pages, id);
      PA.GetFacts(PA.RawUnset(pages, id), id);
      PA.SetGet(qp, "page", PA.RawUnset(pages, id));
      PA.RawSet(qp, "page", PA.RawUnset(pages, id))
  }

  /** Unsetting one page keeps every other page and every other group. */
  lemma UnsetPageKeepsOthers(qp: QueriedPosts, id: int)
    ensures forall k :: k != id ==> PA.Get(Pages(UnsetPage(qp, id)), k) == PA.Get(Pages(qp), k)
    ensures forall t :: t != "page" ==> PA.Get(UnsetPage(qp, id), t) == PA.Get(qp, t)
  {
    match PA.Get(qp, "page")
    case None =>
    case Some(pages) =>
      PA.UnsetFacts(pages, id);
      PA.SetGet(qp, "page", PA.RawUnset(pages, id));
      forall t | t != "page" ensures PA.Get(UnsetPage(qp, id), t) == PA.Get(qp, t) {
        PA.SetGetOther(qp, "page", PA.RawUnset(pages, id), t);
      }
  }

  function PostsTotal(qp: QueriedPosts): nat
  {
    if qp == [] then 0 else PostsTotal(qp[..|qp| - 1]) + |qp[|qp| - 1].1|
  }

  /** The number of images a sequence of `<url>` elements shows. */
  function ImageCount(es: seq<UrlElement>): nat
  {
    if es == [] then 0 else ImageCount(es[..|es| - 1]) + |es[|es| - 1].images|
  }

  lemma ImageCountSnoc(es: seq<UrlElement>, e: UrlElement)
    ensures ImageCount(es + [e]) == ImageCount(es) + |e.images|
  {
    assert (es + [e])[..|es|] == es;
  }

  lemma {:induction false} ImageCountAppend(a: seq<UrlElement>, b: seq<UrlElement>)
    ensures ImageCount(a + b) == ImageCount(a) + ImageCount(b)
    decreases |b|
  {
    if b == [] {
      assert a + b == a;
    } else {
      var n := |b| - 1;
      assert a + b == (a + b[..n]) + [b[n]];
      assert b == b[..n] + [b[n]];
      ImageCountAppend(a, b[..n]);
      ImageCountSnoc(a + b[..n], b[n]);
      ImageCountSnoc(b[..n], b[n]);
    }
  }

  /** No image entries at all: every post shows no image. */
  lemma NoQueriedImages(sel: seq<Attachment>, attachmentUrl: int -> string)
    requires sel == []
    ensures forall id :: DataOf(Emitted(ImagesFor([], id))) == ShownData(Children(sel, id), attachmentUrl)
  {
    NoImages();
    forall id ensures DataOf(Emitted(ImagesFor([], id))) == ShownData(Children(sel, id), attachmentUrl) {
      assert ImagesFor([], id) == [];
    }
  }

  /**
   * How a builder writes its XML: the WordPress helpers, the line break
   * (only under `WP_DEBUG`) and the timezone suffix of the dates.
   */
  datatype Style = Style(env: Wp, timezoneOffset: string, lineBreak: string)

  /** `prepareAttribute` with the WordPress text helpers. */
  function PrepareAttribute(st: Style, attribute: string, maxLength: nat): string
  {
    GS.PrepareAttribute(attribute, maxLength, st.env.htmlDecode, st.env.stripTags, st.env.htmlSpecialChars)
  }

  /** The `<lastmod>` line: only for a set argument that gives a non-zero timestamp. */
  function LastmodText(st: Style, lastmod: Lastmod): string
  {
    if !LastmodIsSet(lastmod) then ""
    else
      var ts := match lastmod case Stamp(t) => t case Date(s) => st.env.strtotime(s);
      if ts == 0 then "" else "<lastmod>" + st.env.gmdate(ts) + st.timezoneOffset + "</lastmod>" + st.lineBreak
  }

  /** One `<image:image>` block: the title and the caption only when set. */
  function ImageText(st: Style, d: ImageData): string
  {
    "<image:image>" + st.lineBreak + "<image:loc>" + d.url + "</image:loc>" + st.lineBreak
    + (if PA.TruthyString(d.title) then "<image:title>" + PrepareAttribute(st, d.title, TitleLength) + "</image:title>" + st.lineBreak else "")
    + (if PA.TruthyString(d.caption) then "<image:caption>" + PrepareAttribute(st, d.caption, CaptionLength) + "</image:caption>" + st.lineBreak else "")
    + "</image:image>" + st.lineBreak
  }

  /** `ImageText` as the block writer of `Rendered`. */
  function ImageWriter(st: Style): ImageData -> string
  {
    d => ImageText(st, d)
  }

  /** The opening of a `<url>` element and its `<loc>` line. */
  function LocText(st: Style, loc: string): string
  {
    "<url>" + st.lineBreak + "<loc>" + loc + "</loc>" + st.lineBreak
  }

  function EndText(st: Style): string
  {
    "</url>" + st.lineBreak
  }

  /** A whole `<url>` element: `<loc>` first, then the lastmod line, the image blocks and the closing tag. */
  function ElementText(st: Style, e: UrlElement): string
  {
    LocText(st, e.loc) + LastmodText(st, e.lastmod) + Rendered(e.images, ImageWriter(st)) + EndText(st)
  }

  /** The output after the elements `es` are written by `render`, one after another, behind the text `o`. */
  function Appended(o: string, es: seq<UrlElement>, render: UrlElement -> string): string
  {
    if es == [] then o else Appended(o, es[..|es| - 1], render) + render(es[|es| - 1])
  }

  lemma AppendedSnoc(o: string, es: seq<UrlElement>, e: UrlElement, render: UrlElement -> string)
    ensures Appended(o, es + [e], render) == Appended(o, es, render) + render(e)
  {
    assert (es + [e])[..|es|] == es;
  }

  /** Appending elements in two runs appends them all. */
  lemma {:induction false} AppendedAppend(o: string, a: seq<UrlElement>, b: seq<UrlElement>, render: UrlElement -> string)
    ensures Appended(Appended(o, a, render), b, render) == Appended(o, a + b, render)
    decreases |b|
  {
    if b == [] {
      assert a + b == a;
    } else {
      var n := |b| - 1;
      assert a + b == (a + b[..n]) + [b[n]];
      AppendedAppend(o, a, b[..n], render);
      AppendedSnoc(o, a + b[..n], b[n], render);
    }
  }

  /** Appending elements to `o` leaves `o` in front, followed by the elements' own text. */
  lemma {:induction false} AppendedKeepsPrefix(o: string, es: seq<UrlElement>, render: UrlElement -> string)
    ensures Appended(o, es, render) == o + Appended("", es, render)
    decreases |es|
  {
    if es != [] {
      var n := |es| - 1;
      AppendedKeepsPrefix(o, es[..n], render);
      AppendAssoc(o, Appended("", es[..n], render), render(es[n]));
    }
  }

  class SitemapBuilder {
    const env: Wp
    /** The indexer's permalinks per sitemap file. */
    const buildingCapacity: int
    const gmtOffset: int
    const timezoneOffsetInSeconds: int
    /** The line break and timezone suffix the XML is written with. */
    const style: Style
    /** Writes one `<url>` element, as `ElementText` with `style`. */
    const render: UrlElement -> string
    /** The request as the indexer settled it. */
    const contentType: string
    const contentFamily: string
    const number: int
    /** `getMysqlOffset()`: where the file's window of rows starts; number and capacity never change, so it is fixed. */
    const mysqlOffset: int

    var output: string
    var numberOfItems: int
    var numberOfImages: int
    /** The integer metrics; the float runtime is not modelled. */
    var metrics: map<string, int>
    var currentID: int
    var queriedPosts: QueriedPosts
    var queriedPostsIDs: seq<int>
    var queriedImages: QueriedImages

    /**
     * The constructors of the builder classes: capacity from the indexer,
     * the `%+03d:00` timezone of the integer GMT offset, a line break only
     * under `WP_DEBUG`.
     */
    constructor (indexer: Indexing.Indexer, env: Wp, gmtOffset: int, wpDebug: bool, publicPostTypes: seq<string>)
      requires indexer.Valid()
      modifies indexer`maxPermalinks, indexer`contentType
      ensures indexer.Valid() && buildingCapacity > 0
      ensures buildingCapacity == indexer.maxPermalinksOption
      ensures style == Style(env, GS.TimezoneString(gmtOffset), if wpDebug then "\n" else "")
      ensures timezoneOffsetInSeconds == gmtOffset * HourInSeconds
      ensures Writes()
      ensures contentType == indexer.contentType && number == indexer.number && contentFamily == indexer.ContentFamily()
      ensures mysqlOffset == GS.MysqlOffset(number, buildingCapacity)
      ensures this.env == env && this.gmtOffset == gmtOffset
      ensures output == "" && numberOfItems == 0 && numberOfImages == 0 && metrics == map[]
      ensures queriedPosts == [] && queriedPostsIDs == [] && queriedImages == []
    {
      var m := indexer.GetMaxPermalinksPerSitemap();
      var ct := indexer.GetContentType(publicPostTypes);
      this.env := env;
      this.gmtOffset := gmtOffset;
      var st := Style(env, GS.TimezoneString(gmtOffset), if wpDebug then "\n" else "");
      style := st;
      render := e => ElementText(st, e);
      timezoneOffsetInSeconds := gmtOffset * HourInSeconds;
      buildingCapacity := m;
      contentType := ct;
      contentFamily := indexer.ContentFamily();
      number := indexer.number;
      mysqlOffset := GS.MysqlOffset(indexer.number, m);
      output := "";
      numberOfItems := 0;
      numberOfImages := 0;
      metrics := map[];
      currentID := 0;
      queriedPosts := [];
      queriedPostsIDs := [];
      queriedImages := [];
    }

    /** `render` writes every element as `ElementText` with the builder's style. */
    ghost predicate Writes()
    {
      forall e {:trigger ElementText(style, e)} :: render(e) == ElementText(style, e)
    }

    method IncrementItemsCounter()
      modifies this`numberOfItems
      ensures numberOfItems == old(numberOfItems) + 1
      ensures BuildingCapacityLeft() == old(BuildingCapacityLeft()) - 1
    {
      numberOfItems := numberOfItems + 1;
    }

    /** `buildingCapacityLeft`. */
    function BuildingCapacityLeft(): (left: int)
      reads this
      ensures left == buildingCapacity - numberOfItems
    {
      buildingCapacity - numberOfItems
    }

    /**
     * `getPageTemplateLastmod`: the template's modification time, shifted
     * to local time, when it is later than the default; else the default.
     */
    function GetPageTemplateLastmod(templates: seq<string>, default: string): (r: Lastmod)
      ensures r.Date? ==> r.s == default
      ensures r.Stamp? ==> r.t > env.strtotime(default)
    {
      var file := env.locateTemplate(templates);
      if PA.TruthyString(file) && env.filemtime(file) + timezoneOffsetInSeconds > env.strtotime(default) then
        Stamp(env.filemtime(file) + timezoneOffsetInSeconds)
      else Date(default)
    }

    /**
     * `buildURLElement`: one more item, and one `<url>` element appended
     * with the escaped URL, the lastmod line and the blocks of the images
     * emitted. The ghost `data` is what those images show.
     */
    method BuildURLElement(url: string, lastmod: Lastmod, images: seq<ImageEntry>, ghost data: seq<ImageData>)
      requires data == DataOf(Emitted(images))
      modifies this`output, this`numberOfItems, this`numberOfImages, this`currentID
      requires Writes()
      ensures output == old(output) + render(UrlElement(env.escUrl(url), lastmod, data))
      ensures numberOfItems == old(numberOfItems) + 1
      ensures numberOfImages == old(numberOfImages) + |data| && |data| <= ImagesPerUrlElement
      ensures currentID == 0
    {
      var loc := env.escUrl(url);
      IncrementItemsCounter();
      var head := LocText(style, loc) + LastmodText(style, lastmod);
      var blocks, imagesCount := ImageBlocksOf(images, data, ImageWriter(style));
      currentID := 0;
      numberOfImages := numberOfImages + imagesCount;
      assert render(UrlElement(loc, lastmod, data)) == ElementText(style, UrlElement(loc, lastmod, data));
      output := output + (head + blocks + EndText(style));
    }

    /** What a post's `<url>` element shows of its images, when `sel` are the attachments queried. */
    function ShownImages(sel: seq<Attachment>, id: int): seq<ImageData>
    {
      ShownData(Children(sel, id), env.attachmentUrl)
    }

    /** The element of a queried post: its permalink, for a page the later of its template's and its own date, and its images. */
    function PostElement(isPage: bool, p: Post, sel: seq<Attachment>): UrlElement
    {
      var lastmod := if isPage then GetPageTemplateLastmod(["page-" + p.name + ".php", "page-" + IntToString(p.ID) + ".php"], p.modified)
                     else Date(p.modified);
      UrlElement(env.escUrl(env.permalink(p)), lastmod, ShownImages(sel, p.ID))
    }

    function PostElements(isPage: bool, posts: seq<(int, Post)>, sel: seq<Attachment>): (r: seq<UrlElement>)
      ensures |r| == |posts|
    {
      if posts == [] then [] else PostElements(isPage, posts[..|posts| - 1], sel) + [PostElement(isPage, posts[|posts| - 1].1, sel)]
    }

    lemma PostElementsStep(isPage: bool, posts: seq<(int, Post)>, sel: seq<Attachment>, j: nat)
      requires j < |posts|
      ensures PostElements(isPage, posts[..j + 1], sel) == PostElements(isPage, posts[..j], sel) + [PostElement(isPage, posts[j].1, sel)]
    {
      assert posts[..j + 1][..j] == posts[..j];
    }

    /** The elements of the posts loop: group by group, post by post. */
    function GroupElements(qp: QueriedPosts, sel: seq<Attachment>): (r: seq<UrlElement>)
      ensures |r| == PostsTotal(qp)
    {
      if qp == [] then []
      else
        var g := qp[|qp| - 1];
        GroupElements(qp[..|qp| - 1], sel) + PostElements(g.0 == "page", g.1, sel)
    }

    lemma GroupElementsStep(qp: QueriedPosts, sel: seq<Attachment>, i: nat)
      requires i < |qp|
      ensures GroupElements(qp[..i + 1], sel) == GroupElements(qp[..i], sel) + PostElements(qp[i].0 == "page", qp[i].1, sel)
    {
      assert qp[..i + 1][..i] == qp[..i];
    }

    /** The front page: the queried one when there is one, else the stored post. */
    function FrontPage(qp: QueriedPosts): Post
    {
      match PA.Get(Pages(qp), env.frontPageID)
      case Some(p) => p
      case None => env.getPost(env.frontPageID)
    }

    predicate BuildsHomePage()
    {
      contentType == "page" && number == 0
    }

    /**
     * The home element: only in the unnumbered `page` file, at the home
     * URL, dated and illustrated by the front page when there is one, else
     * dated by the newest post.
     */
    function HomeElements(qp: QueriedPosts, sel: seq<Attachment>): (r: seq<UrlElement>)
      ensures |r| == if BuildsHomePage() then 1 else 0
      ensures r != [] ==> r[0].loc == env.escUrl(env.homeUrl)
    {
      if !BuildsHomePage() then []
      else if env.frontPageID != 0 then
        [UrlElement(env.escUrl(env.homeUrl), GetPageTemplateLastmod(["front-page.php"], FrontPage(qp).modified), ShownImages(sel, FrontPage(qp).ID))]
      else [UrlElement(env.escUrl(env.homeUrl), Date(env.lastPostModified), [])]
    }

    /** The date of the blog page: the newest queried post's when posts were queried, else its own. */
    function BlogLastmod(qp: QueriedPosts, blogPage: Post): string
    {
      match PA.Get(qp, "post")
      case Some(posts) => if posts != [] then posts[0].1.modified else blogPage.modified
      case None => blogPage.modified
    }

    /** The blog element: only when the blog page was queried. */
    function BlogElements(qp: QueriedPosts, sel: seq<Attachment>): (r: seq<UrlElement>)
      ensures |r| == if PA.Get(Pages(qp), env.blogPageID).Some? then 1 else 0
    {
      match PA.Get(Pages(qp), env.blogPageID)
      case None => []
      case Some(blogPage) => [UrlElement(env.escUrl(env.permalink(blogPage)), Date(BlogLastmod(qp, blogPage)), ShownImages(sel, blogPage.ID))]
    }

    function AfterBlog(qp: QueriedPosts): QueriedPosts
    {
      if PA.Get(Pages(qp), env.blogPageID).Some? then UnsetPage(qp, env.blogPageID) else qp
    }

    /** `buildHomePageElement`; `sel` are the attachments the images were made from. */
    method BuildHomePageElement(ghost sel: seq<Attachment>)
      requires Writes()
      requires forall id :: DataOf(Emitted(ImagesFor(queriedImages, id))) == ShownImages(sel, id)
      modifies this`output, this`numberOfItems, this`numberOfImages, this`currentID, this`queriedPosts
      ensures var es := HomeElements(old(queriedPosts), sel);
        && output == Appended(old(output), es, render)
        && numberOfItems == old(numberOfItems) + |es|
        && numberOfImages == old(numberOfImages) + ImageCount(es)
      ensures queriedPosts == UnsetPage(old(queriedPosts), env.frontPageID)
    {
      var frontPageID := env.frontPageID;
      ghost var es := HomeElements(queriedPosts, sel);
      if contentType == "page" && number == 0 {
        if frontPageID != 0 {
          currentID := frontPageID;
          var frontPage := FrontPage(queriedPosts);
          var images := ImagesFor(queriedImages, frontPage.ID);
          BuildURLElement(env.homeUrl, GetPageTemplateLastmod(["front-page.php"], frontPage.modified), images, ShownImages(sel, frontPage.ID));
        } else {
          NoImages();
          BuildURLElement(env.homeUrl, Date(env.lastPostModified), [], []);
        }
        OneElement(old(output), es);
      }
      queriedPosts := UnsetPage(queriedPosts, frontPageID);
    }

    /** `buildBlogPageElement`; `sel` are the attachments the images were made from. */
    method BuildBlogPageElement(ghost sel: seq<Attachment>)
      requires Writes()
      requires forall id :: DataOf(Emitted(ImagesFor(queriedImages, id))) == ShownImages(sel, id)
      modifies this`output, this`numberOfItems, this`numberOfImages, this`currentID, this`queriedPosts
      ensures var es := BlogElements(old(queriedPosts), sel);
        && output == Appended(old(output), es, render)
        && numberOfItems == old(numberOfItems) + |es|
        && numberOfImages == old(numberOfImages) + ImageCount(es)
      ensures queriedPosts == AfterBlog(old(queriedPosts))
      ensures PA.Get(Pages(queriedPosts), env.blogPageID) == None
    {
      var blogPageID := env.blogPageID;
      ghost var es := BlogElements(queriedPosts, sel);
      match PA.Get(Pages(queriedPosts), blogPageID)
      case None =>
      case Some(blogPage) =>
        currentID := blogPageID;
        var lastmod := BlogLastmod(queriedPosts, blogPage);
        var images := ImagesFor(queriedImages, blogPage.ID);
        BuildURLElement(env.permalink(blogPage), Date(lastmod), images, ShownImages(sel, blogPage.ID));
        OneElement(old(output), es);
        queriedPosts := UnsetPage(queriedPosts, blogPageID);
    }

    /** A single element appended. */
    lemma OneElement(o: string, es: seq<UrlElement>)
      requires |es| == 1
      ensures Appended(o, es, render) == o + render(es[0]) && ImageCount(es) == |es[0].images|
    {
      assert es == [] + [es[0]];
      AppendedSnoc(o, [], es[0], render);
      ImageCountSnoc([], es[0]);
    }

    /** The rows the posts query returns: one window of the content type's posts. */
    function PostsWindow(t: Tables, items: int): seq<Post>
      requires buildingCapacity > 0
    {
      GS.Window(t.posts, mysqlOffset, buildingCapacity - items)
    }

    /** `queryPosts`. */
    method QueryPosts(t: Tables) returns (found: bool)
      requires buildingCapacity > 0
      modifies this`queriedPosts, this`queriedPostsIDs
      ensures var rows := PostsWindow(t, numberOfItems);
        && (found <==> rows != [])
        && (found ==> queriedPostsIDs == old(queriedPostsIDs) + IDs(rows) && queriedPosts == Grouped(old(queriedPosts), rows))
        && (!found ==> queriedPostsIDs == old(queriedPostsIDs) && queriedPosts == old(queriedPosts))
    {
      var rows := GS.Window(t.posts, mysqlOffset, BuildingCapacityLeft());
      if rows == [] {
        return false;
      }
      var k := 0;
      while k < |rows|
        invariant 0 <= k <= |rows|
        invariant queriedPostsIDs == old(queriedPostsIDs) + IDs(rows[..k])
        invariant queriedPosts == Grouped(old(queriedPosts), rows[..k])
      {
        assert rows[..k + 1][..k] == rows[..k];
        queriedPostsIDs := queriedPostsIDs + [rows[k].ID];
        queriedPosts := PutPost(queriedPosts, rows[k]);
        k := k + 1;
      }
      assert rows[..k] == rows;
      found := true;
    }

    /**
     * `queryImages`: one image per selected attachment, under its parent
     * post, in query order; so each post's emitted images show its first
     * 1000 image attachments.
     */
    method QueryImages(t: Tables)
      requires queriedImages == []
      modifies this`queriedImages
      ensures forall id :: MadeFrom(PA.Get(queriedImages, id).GetOr([]), Children(Selected(t.attachments, queriedPostsIDs), id))
      ensures forall id :: DataOf(Emitted(ImagesFor(queriedImages, id))) == ShownImages(Selected(t.attachments, queriedPostsIDs), id)
    {
      var rows := Selected(t.attachments, queriedPostsIDs);
      var k := 0;
      while k < |rows|
        invariant 0 <= k <= |rows|
        invariant forall id :: Shows(PA.Get(queriedImages, id).GetOr([]), Children(rows[..k], id), env.attachmentUrl)
      {
        var a := rows[k];
        var img := new ImageElement.FromAttachment(a, env.attachmentUrl);
        AddImageStep(queriedImages, rows, k, img, env.attachmentUrl);
        queriedImages := AddImage(queriedImages, a.parent, img);
        k := k + 1;
      }
      assert rows[..k] == rows;
      forall id ensures DataOf(Emitted(ImagesFor(queriedImages, id))) == ShownImages(rows, id) {
        ShowsData(PA.Get(queriedImages, id).GetOr([]), Children(rows, id), env.attachmentUrl);
      }
    }

    /** The elements `buildPostsElements` builds from the queried posts: home, blog, then the rest group by group. */
    function QueriedElements(qp: QueriedPosts, sel: seq<Attachment>): seq<UrlElement>
    {
      var g := UnsetPage(qp, env.frontPageID);
      HomeElements(qp, sel) + BlogElements(g, sel) + GroupElements(AfterBlog(g), sel)
    }

    /** The elements `buildPostsElements` builds from a non-empty window of posts. */
    function PostsElements(rows: seq<Post>, sel: seq<Attachment>): seq<UrlElement>
    {
      QueriedElements(Grouped([], rows), sel)
    }

    /** The elements `buildPostsElements` builds from the file's window of posts, when it is not empty. */
    function WindowElements(t: Tables, items: int): seq<UrlElement>
      requires buildingCapacity > 0
    {
      var rows := PostsWindow(t, items);
      PostsElements(rows, Selected(t.attachments, IDs(rows)))
    }

    /** `buildPostsElements`. */
    method BuildPostsElements(t: Tables) returns (found: bool)
      requires Writes()
      requires buildingCapacity > 0 && queriedPosts == [] && queriedPostsIDs == [] && queriedImages == []
      modifies this`output, this`numberOfItems, this`numberOfImages, this`currentID, this`queriedPosts, this`queriedPostsIDs, this`queriedImages
      ensures found <==> PostsWindow(t, old(numberOfItems)) != []
      ensures found ==> var es := WindowElements(t, old(numberOfItems));
        && output == Appended(old(output), es, render)
        && numberOfItems == old(numberOfItems) + |es|
        && numberOfImages == old(numberOfImages) + ImageCount(es)
      ensures !found ==> output == old(output) && numberOfItems == old(numberOfItems) && numberOfImages == old(numberOfImages)
      ensures queriedPosts == [] && queriedPostsIDs == [] && queriedImages == []
    {
      found := QueryPosts(t);
      if found {
        BuildWindowElements(t, numberOfItems);
        queriedPosts, queriedPostsIDs, queriedImages := [], [], [];
      }
    }

    /** The part of `buildPostsElements` once posts were found: the images query, then the elements. */
    method BuildWindowElements(t: Tables, ghost items: int)
      requires Writes() && buildingCapacity > 0
      requires var rows := PostsWindow(t, items);
        queriedPosts == Grouped([], rows) && queriedPostsIDs == IDs(rows) && queriedImages == []
      modifies this`output, this`numberOfItems, this`numberOfImages, this`currentID, this`queriedPosts, this`queriedImages
      ensures var es := WindowElements(t, items);
        && output == Appended(old(output), es, render)
        && numberOfItems == old(numberOfItems) + |es|
        && numberOfImages == old(numberOfImages) + ImageCount(es)
    {
      ghost var rows := PostsWindow(t, items);
      ghost var sel := Selected(t.attachments, IDs(rows));
      QueryImages(t);
      BuildQueriedElements(sel);
    }

    /** The part of `buildPostsElements` after the queries: the home element, the blog element, then the loop. */
    method BuildQueriedElements(ghost sel: seq<Attachment>)
      requires Writes()
      requires forall id :: DataOf(Emitted(ImagesFor(queriedImages, id))) == ShownImages(sel, id)
      modifies this`output, this`numberOfItems, this`numberOfImages, this`currentID, this`queriedPosts
      ensures var es := QueriedElements(old(queriedPosts), sel);
        && output == Appended(old(output), es, render)
        && numberOfItems == old(numberOfItems) + |es|
        && numberOfImages == old(numberOfImages) + ImageCount(es)
    {
      ghost var qp0 := queriedPosts;
      BuildHomePageElement(sel);
      ghost var qp1, out1 := queriedPosts, output;
      BuildBlogPageElement(sel);
      ghost var qp2, out2 := queriedPosts, output;
      BuildQueriedPostsElements(sel);
      ghost var home, blog, rest := HomeElements(qp0, sel), BlogElements(qp1, sel), GroupElements(qp2, sel);
      assert QueriedElements(qp0, sel) == home + blog + rest;
      AppendedAppend(old(output), home, blog, render);
      AppendedAppend(old(output), home + blog, rest, render);
      ImageCountAppend(home, blog);
      ImageCountAppend(home + blog, rest);
    }

    /** The loop of `buildPostsElements` over the queried posts, group by group. */
    method BuildQueriedPostsElements(ghost sel: seq<Attachment>)
      requires Writes()
      requires forall id :: DataOf(Emitted(ImagesFor(queriedImages, id))) == ShownImages(sel, id)
      modifies this`output, this`numberOfItems, this`numberOfImages, this`currentID
      ensures var es := GroupElements(queriedPosts, sel);
        && output == Appended(old(output), es, render)
        && numberOfItems == old(numberOfItems) + |es|
        && numberOfImages == old(numberOfImages) + ImageCount(es)
    {
      var qp := queriedPosts;
      var i := 0;
      while i < |qp|
        invariant 0 <= i <= |qp|
        invariant var es := GroupElements(qp[..i], sel);
          && output == Appended(old(output), es, render)
          && numberOfItems == old(numberOfItems) + |es|
          && numberOfImages == old(numberOfImages) + ImageCount(es)
      {
        ghost var before := GroupElements(qp[..i], sel);
          BuildGroupElements(qp[i].0, qp[i].1, sel);
        ghost var group := PostElements(qp[i].0 == "page", qp[i].1, sel);
        GroupElementsStep(qp, sel, i);
        AppendedAppend(old(output), before, group, render);
        ImageCountAppend(before, group);
        i := i + 1;
      }
      assert qp[..i] == qp;
    }

    /** The inner loop: a `<url>` element per post of one type, a page dated by its template too. */
    method BuildGroupElements(postType: string, posts: seq<(int, Post)>, ghost sel: seq<Attachment>)
      requires Writes()
      requires forall id :: DataOf(Emitted(ImagesFor(queriedImages, id))) == ShownImages(sel, id)
      modifies this`output, this`numberOfItems, this`numberOfImages, this`currentID
      ensures var es := PostElements(postType == "page", posts, sel);
        && output == Appended(old(output), es, render)
        && numberOfItems == old(numberOfItems) + |es|
        && numberOfImages == old(numberOfImages) + ImageCount(es)
    {
      var j := 0;
      while j < |posts|
        invariant 0 <= j <= |posts|
        invariant var es := PostElements(postType == "page", posts[..j], sel);
          && output == Appended(old(output), es, render)
          && numberOfItems == old(numberOfItems) + j
          && numberOfImages == old(numberOfImages) + ImageCount(es)
      {
        ghost var before := PostElements(postType == "page", posts[..j], sel);
        var post := posts[j].1;
          BuildPostElement(postType == "page", post, sel);
        ghost var e := PostElement(postType == "page", post, sel);
        PostElementsStep(postType == "page", posts, sel, j);
        AppendedSnoc(old(output), before, e, render);
        ImageCountSnoc(before, e);
        j := j + 1;
      }
      assert posts[..j] == posts;
    }

    /** The body of the inner loop for one post. */
    method BuildPostElement(isPage: bool, post: Post, ghost sel: seq<Attachment>)
      requires Writes()
      requires forall id :: DataOf(Emitted(ImagesFor(queriedImages, id))) == ShownImages(sel, id)
      modifies this`output, this`numberOfItems, this`numberOfImages, this`currentID
      ensures output == old(output) + render(PostElement(isPage, post, sel))
      ensures numberOfItems == old(numberOfItems) + 1
      ensures numberOfImages == old(numberOfImages) + |PostElement(isPage, post, sel).images|
    {
      currentID := post.ID;
      var images := ImagesFor(queriedImages, post.ID);
      var lastmod := Date(post.modified);
      if isPage {
        lastmod := GetPageTemplateLastmod(["page-" + post.name + ".php", "page-" + IntToString(post.ID) + ".php"], post.modified);
      }
      BuildURLElement(env.permalink(post), lastmod, images, ShownImages(sel, post.ID));
    }

    function AuthorElement(a: Author): UrlElement
    {
      UrlElement(env.escUrl(env.authorPostsUrl(a.ID, a.nicename)), Date(a.lastPostModified), [])
    }

    function AuthorElements(authors: seq<Author>): (r: seq<UrlElement>)
      ensures |r| == |authors| && ImageCount(r) == 0
    {
      if authors == [] then []
      else
        ImageCountSnoc(AuthorElements(authors[..|authors| - 1]), AuthorElement(authors[|authors| - 1]));
        AuthorElements(authors[..|authors| - 1]) + [AuthorElement(authors[|authors| - 1])]
    }

    function TermElement(term: Term): UrlElement
    {
      UrlElement(env.escUrl(env.termLink(term.termID)), Date(term.lastModified), [])
    }

    function TermElements(terms: seq<Term>): (r: seq<UrlElement>)
      ensures |r| == |terms| && ImageCount(r) == 0
    {
      if terms == [] then []
      else
        ImageCountSnoc(TermElements(terms[..|terms| - 1]), TermElement(terms[|terms| - 1]));
        TermElements(terms[..|terms| - 1]) + [TermElement(terms[|terms| - 1])]
    }

    /** `buildAuthorsPagesElements`: an element per author of the file's window, no images. */
    method BuildAuthorsPagesElements(t: Tables)
      requires Writes()
      requires buildingCapacity > 0
      modifies this`output, this`numberOfItems, this`numberOfImages, this`currentID
      ensures var es := AuthorElements(GS.Window(t.authors, mysqlOffset, buildingCapacity - old(numberOfItems)));
        && output == Appended(old(output), es, render)
        && numberOfItems == old(numberOfItems) + |es|
        && numberOfImages == old(numberOfImages)
    {
      var rows := GS.Window(t.authors, mysqlOffset, BuildingCapacityLeft());
      BuildAuthorRows(rows);
    }

    /** The loop over the window's authors: their elements, in order. */
    method BuildAuthorRows(rows: seq<Author>)
      requires Writes()
      modifies this`output, this`numberOfItems, this`numberOfImages, this`currentID
      ensures output == Appended(old(output), AuthorElements(rows), render)
      ensures numberOfItems == old(numberOfItems) + |rows| && numberOfImages == old(numberOfImages)
    {
      var k := 0;
      while k < |rows|
        invariant 0 <= k <= |rows|
        invariant output == Appended(old(output), AuthorElements(rows[..k]), render)
        invariant numberOfItems == old(numberOfItems) + k && numberOfImages == old(numberOfImages)
      {
        ghost var before := AuthorElements(rows[..k]);
        BuildAuthorElement(rows[k]);
        AuthorElementsStep(rows, k);
        AppendedSnoc(old(output), before, AuthorElement(rows[k]), render);
        k := k + 1;
      }
      assert rows[..k] == rows;
    }

    /** The body of the authors loop. */
    method BuildAuthorElement(a: Author)
      requires Writes()
      modifies this`output, this`numberOfItems, this`numberOfImages, this`currentID
      ensures output == old(output) + render(AuthorElement(a))
      ensures numberOfItems == old(numberOfItems) + 1 && numberOfImages == old(numberOfImages)
    {
      NoImages();
      BuildURLElement(env.authorPostsUrl(a.ID, a.nicename), Date(a.lastPostModified), [], []);
    }

    lemma AuthorElementsStep(rows: seq<Author>, k: nat)
      requires k < |rows|
      ensures AuthorElements(rows[..k + 1]) == AuthorElements(rows[..k]) + [AuthorElement(rows[k])]
    {
      assert rows[..k + 1][..k] == rows[..k];
    }

    /** `buildTaxonomyPagesElements`: an element per term of the file's window, no images. */
    method BuildTaxonomyPagesElements(t: Tables)
      requires Writes()
      requires buildingCapacity > 0
      modifies this`output, this`numberOfItems, this`numberOfImages, this`currentID
      ensures var es := TermElements(GS.Window(t.terms, mysqlOffset, buildingCapacity - old(numberOfItems)));
        && output == Appended(old(output), es, render)
        && numberOfItems == old(numberOfItems) + |es|
        && numberOfImages == old(numberOfImages)
    {
      var rows := GS.Window(t.terms, mysqlOffset, BuildingCapacityLeft());
      BuildTermRows(rows);
    }

    /** The loop over the window's terms: their elements, in order. */
    method BuildTermRows(rows: seq<Term>)
      requires Writes()
      modifies this`output, this`numberOfItems, this`numberOfImages, this`currentID
      ensures output == Appended(old(output), TermElements(rows), render)
      ensures numberOfItems == old(numberOfItems) + |rows| && numberOfImages == old(numberOfImages)
    {
      var k := 0;
      while k < |rows|
        invariant 0 <= k <= |rows|
        invariant output == Appended(old(output), TermElements(rows[..k]), render)
        invariant numberOfItems == old(numberOfItems) + k && numberOfImages == old(numberOfImages)
      {
        ghost var before := TermElements(rows[..k]);
        BuildTermElement(rows[k]);
        TermElementsStep(rows, k);
        AppendedSnoc(old(output), before, TermElement(rows[k]), render);
        k := k + 1;
      }
      assert rows[..k] == rows;
    }

    /** The body of the terms loop. */
    method BuildTermElement(term: Term)
      requires Writes()
      modifies this`output, this`numberOfItems, this`numberOfImages, this`currentID
      ensures output == old(output) + render(TermElement(term))
      ensures numberOfItems == old(numberOfItems) + 1 && numberOfImages == old(numberOfImages)
    {
      currentID := term.termID;
      NoImages();
      BuildURLElement(env.termLink(term.termID), Date(term.lastModified), [], []);
    }

    lemma TermElementsStep(rows: seq<Term>, k: nat)
      requires k < |rows|
      ensures TermElements(rows[..k + 1]) == TermElements(rows[..k]) + [TermElement(rows[k])]
    {
      assert rows[..k + 1][..k] == rows[..k];
    }

    /** The elements a build emits, family by family. */
    function PlannedElements(t: Tables, items: int): seq<UrlElement>
      requires buildingCapacity > 0
    {
      if contentFamily == "post" then
        var rows := PostsWindow(t, items);
        if rows == [] then HomeElements([], []) else PostsElements(rows, Selected(t.attachments, IDs(rows)))
      else if contentFamily == "taxonomy" then TermElements(GS.Window(t.terms, mysqlOffset, buildingCapacity - items))
      else if contentFamily == "author" then AuthorElements(GS.Window(t.authors, mysqlOffset, buildingCapacity - items))
      else []
    }

    /** `runBuildingProcess`: with no posts in the window, the post family still builds the home element. */
    method RunBuildingProcess(t: Tables)
      requires Writes()
      requires buildingCapacity > 0 && queriedPosts == [] && queriedPostsIDs == [] && queriedImages == []
      modifies this`output, this`numberOfItems, this`numberOfImages, this`currentID, this`queriedPosts, this`queriedPostsIDs, this`queriedImages
      ensures var es := PlannedElements(t, old(numberOfItems));
        && output == Appended(old(output), es, render)
        && numberOfItems == old(numberOfItems) + |es|
        && numberOfImages == old(numberOfImages) + ImageCount(es)
    {
      if contentFamily == "post" {
        var found := BuildPostsElements(t);
        if !found {
          NoQueriedImages([], env.attachmentUrl);
          BuildHomePageElement([]);
        }
      } else if contentFamily == "taxonomy" {
        BuildTaxonomyPagesElements(t);
      } else if contentFamily == "author" {
        BuildAuthorsPagesElements(t);
      }
    }

    /**
     * `build`: start the counters, build, stop the counters. The query
     * counter's readings before and after are parameters.
     */
    method Build(t: Tables, queriesBefore: int, queriesAfter: int) returns (out: string)
      requires Writes()
      requires buildingCapacity > 0 && queriedPosts == [] && queriedPostsIDs == [] && queriedImages == []
      modifies this`output, this`numberOfItems, this`numberOfImages, this`currentID, this`queriedPosts, this`queriedPostsIDs, this`queriedImages, this`metrics
      ensures var es := PlannedElements(t, old(numberOfItems));
        && out == output == Appended(old(output), es, render)
        && numberOfItems == old(numberOfItems) + |es|
        && numberOfImages == old(numberOfImages) + ImageCount(es)
      ensures metrics == old(metrics)["num_queries" := queriesAfter - queriesBefore]["num_items" := numberOfItems]
    {
      StartCounters(queriesBefore);
      ghost var started := metrics;
      RunBuildingProcess(t);
      assert metrics == started;
      StopCounters(queriesAfter);
      CountersOverwrite(old(metrics), "num_queries", "num_items", 0 - queriesBefore, queriesAfter, numberOfItems);
      out := output;
    }

    /** `startCounters`: the query count starts negative, so that adding the final reading gives the difference. */
    method StartCounters(queriesBefore: int)
      modifies this`metrics
      ensures metrics == old(metrics)["num_queries" := 0 - queriesBefore]
    {
      metrics := metrics["num_queries" := 0 - queriesBefore];
    }

    /** `stopCounters`: the item count, and the query count completed by the final reading. */
    method StopCounters(queriesAfter: int)
      requires "num_queries" in metrics
      modifies this`metrics
      ensures metrics == old(metrics)["num_items" := numberOfItems]["num_queries" := old(metrics)["num_queries"] + queriesAfter]
    {
      metrics := metrics["num_items" := numberOfItems];
      metrics := metrics["num_queries" := metrics["num_queries"] + queriesAfter];
    }

    /** `getMetrics`: the metrics with the image count. */
    method GetMetrics() returns (m: map<string, int>)
      modifies this`metrics
      ensures metrics == old(metrics)["num_images" := numberOfImages] && m == metrics
    {
      metrics := metrics["num_images" := numberOfImages];
      m := metrics;
    }

    /**
     * The unnumbered `page` file always opens with the home element, whether
     * or not posts were found and whether or not a front page is set.
     */
    lemma HomePageFirst(t: Tables, items: int)
      requires buildingCapacity > 0 && contentFamily == "post" && BuildsHomePage()
      ensures PlannedElements(t, items) != [] && PlannedElements(t, items)[0].loc == env.escUrl(env.homeUrl)
    {
      var rows := PostsWindow(t, items);
      if rows != [] {
        PostsOpenWithHome(rows, Selected(t.attachments, IDs(rows)));
      }
    }

    /** The elements built from found posts open with the home element. */
    lemma PostsOpenWithHome(rows: seq<Post>, sel: seq<Attachment>)
      requires BuildsHomePage()
      ensures PostsElements(rows, sel) != [] && PostsElements(rows, sel)[0].loc == env.escUrl(env.homeUrl)
    {
      var home := HomeElements(Grouped([], rows), sel);
      var g := UnsetPage(Grouped([], rows), env.frontPageID);
      assert PostsElements(rows, sel) == home + (BlogElements(g, sel) + GroupElements(AfterBlog(g), sel));
    }
  }

  /** Updating a counter twice around another one leaves the other one and the last value. */
  lemma CountersOverwrite(m: map<string, int>, a: string, b: string, x: int, y: int, z: int)
    requires a != b
    ensures m[a := x][b := z][a := x + y] == m[a := x + y][b := z]
  {
  }

  lemma SeqAppendAssoc<T>(a: seq<T>, b: seq<T>, c: seq<T>)
    ensures a + b + c == a + (b + c)
  {
  }

  lemma AppendAssoc(a: string, b: string, c: string)
    ensures a + b + c == a + (b + c)
  {
  }

  /** Adding the image made from the next attachment keeps every post's images made from, and resolving to, its children. */
  lemma AddImageStep(qi: QueriedImages, rows: seq<Attachment>, k: nat, img: ImageElement, attachmentUrl: int -> string)
    requires k < |rows|
    requires forall id :: Shows(PA.Get(qi, id).GetOr([]), Children(rows[..k], id), attachmentUrl)
    requires img.ID == rows[k].ID && img.title == rows[k].title && img.caption == AttachmentCaption(rows[k])
    requires img.ResolvedUrl() == AttachmentData(rows[k], attachmentUrl).url
    ensures forall id :: Shows(PA.Get(AddImage(qi, rows[k].parent, img), id).GetOr([]), Children(rows[..k + 1], id), attachmentUrl)
  {
    var p := rows[k].parent;
    var imgs := PA.Get(qi, p).GetOr([]) + [img];
    assert rows[..k + 1][..k] == rows[..k];
    forall id ensures Shows(PA.Get(AddImage(qi, p, img), id).GetOr([]), Children(rows[..k + 1], id), attachmentUrl) {
      if id == p {
        PA.SetGet(qi, p, imgs);
      } else {
        PA.SetGetOther(qi, p, imgs, id);
      }
    }
  }
}
