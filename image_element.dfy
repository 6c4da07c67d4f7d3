/**
 * An image of a sitemap's `<url>` element: its title and caption are fixed
 * when it is made, its URL is either given or, for an image made from an
 * attachment, looked up by the attachment's ID on first use and kept.
 */
module Images {
  import PA = PhpArray

  /** The columns of an image attachment row that the builder reads. */
  datatype Attachment = Attachment(ID: int, parent: int, title: string, excerpt: string, content: string)

  class ImageElement {
    /** The attachment ID; 0 stands for the unset ID of an image from `make`. */
    const ID: int
    const title: string
    const caption: string
    var url: string
    /** The URL the image was made with. */
    const madeWithUrl: string
    /** `wp_get_attachment_url`, with its `false` read as "". */
    const attachmentUrl: int -> string

    /** The URL held is the one it was made with, or, once looked up, the attachment's. */
    predicate Valid()
      reads this
    {
      url == madeWithUrl || (ID != 0 && !PA.TruthyString(madeWithUrl) && url == attachmentUrl(ID))
    }

    /** `ImageElement::make`: the URL is always escaped, title and caption are sanitised only when set. */
    constructor Make(url: string, title: string, caption: string,
                     escUrl: string -> string, sanitizeText: string -> string, attachmentUrl: int -> string)
      ensures Valid() && this.url == escUrl(url) && ID == 0
      ensures PA.TruthyString(title) ==> this.title == sanitizeText(title)
      ensures !PA.TruthyString(title) ==> this.title == title
      ensures PA.TruthyString(caption) ==> this.caption == sanitizeText(caption)
      ensures !PA.TruthyString(caption) ==> this.caption == caption
      ensures this.attachmentUrl == attachmentUrl
      ensures ResolvedUrl() == escUrl(url)
    {
      this.url := escUrl(url);
      madeWithUrl := escUrl(url);
      this.title := if PA.TruthyString(title) then sanitizeText(title) else title;
      this.caption := if PA.TruthyString(caption) then sanitizeText(caption) else caption;
      this.ID := 0;
      this.attachmentUrl := attachmentUrl;
    }

    /** `ImageElement::makeFromAttachment`: no URL yet, the caption is the excerpt when set, else the content. */
    constructor FromAttachment(a: Attachment, attachmentUrl: int -> string)
      ensures Valid() && ID == a.ID && url == "" && title == a.title
      ensures PA.TruthyString(a.excerpt) ==> caption == a.excerpt
      ensures !PA.TruthyString(a.excerpt) ==> caption == a.content
      ensures this.attachmentUrl == attachmentUrl
      ensures a.ID != 0 ==> ResolvedUrl() == attachmentUrl(a.ID)
    {
      this.ID := a.ID;
      this.url := "";
      madeWithUrl := "";
      this.title := a.title;
      this.caption := if PA.TruthyString(a.excerpt) then a.excerpt else a.content;
      this.attachmentUrl := attachmentUrl;
    }

    /**
     * The URL `url()` yields: the attachment's URL when there is an ID and
     * the image was made without a URL, else the URL it was made with.
     */
    function ResolvedUrl(): string
    {
      if ID != 0 && !PA.TruthyString(madeWithUrl) then attachmentUrl(ID) else madeWithUrl
    }

    /**
     * `url()`: looks the URL up by ID when none is held and keeps it; a URL
     * already held, or an image without an ID, is left as it is. Every call
     * yields the resolved URL.
     */
    method Url() returns (u: string)
      requires Valid()
      modifies this`url
      ensures Valid() && u == ResolvedUrl() && url == u
      ensures ID != 0 && !PA.TruthyString(old(url)) ==> url == attachmentUrl(ID)
      ensures PA.TruthyString(old(url)) || ID == 0 ==> url == old(url)
    {
      if ID != 0 && !PA.TruthyString(url) {
        url := attachmentUrl(ID);
      }
      u := url;
    }
  }
}
