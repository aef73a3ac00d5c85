/** The page head derivations (`SEOHead.tsx`): the full title, the absolute image and
    canonical addresses, the schema.org structured data and the robots directive. Writing
    them into the document is not part of this model. */
module SeoHead {
  import opened Js

  const DefaultSiteName := "My Blog"
  const DefaultSiteUrl := "https://myblog.com"

  datatype PageType = Website | Article | Blog

  datatype AuthorRef = AuthorRef(name: string, url: Option<string>)

  /** The component's props, with their defaults already applied. */
  datatype Props = Props(title: string, description: string, canonical: Option<string>,
                         image: Option<string>, pageType: PageType, publishedAt: Option<string>,
                         modifiedAt: Option<string>, author: Option<AuthorRef>, tags: seq<string>,
                         section: Option<string>, siteName: string, siteUrl: string,
                         noindex: bool, nofollow: bool)

  /** `a || b` for an optional string and a fallback. */
  function OrElse(a: Option<string>, b: string): string {
    if TruthyText(a) then a.value else b
  }

  lemma EndsWithIncludes(s: string, part: string)
    requires EndsWith(s, part)
    ensures Includes(s, part)
  {
    IncludesIffOccurs(s, part);
    assert OccursAt(s, part, |s| - |part|);
  }

  /** `fullTitle`: a title naming the site already is kept; any other gets
      " | " and the site name appended. */
  function FullTitle(title: string, siteName: string): (r: string)
    ensures Includes(r, siteName)
    ensures Includes(title, siteName) ==> r == title
    ensures !Includes(title, siteName) ==> StartsWith(r, title) && EndsWith(r, " | " + siteName)
  {
    if Includes(title, siteName) then title
    else
      var r := title + " | " + siteName;
      assert r[|r| - |siteName|..] == siteName;
      EndsWithIncludes(r, siteName);
      assert r[..|title|] == title;
      assert r[|title|..] == " | " + siteName;
      r
  }

  /** Building the full title from a full title changes nothing. */
  lemma FullTitleIdempotent(title: string, siteName: string)
    ensures FullTitle(FullTitle(title, siteName), siteName) == FullTitle(title, siteName)
  {
  }

  /** An address beginning "http" is kept; any other is put after the site address. */
  function Absolute(path: string, siteUrl: string): (r: string)
    ensures StartsWith(siteUrl, "http") ==> StartsWith(r, "http")
    ensures EndsWith(r, path)
  {
    if StartsWith(path, "http") then path
    else
      var r := siteUrl + path;
      assert r[|r| - |path|..] == path;
      assert StartsWith(siteUrl, "http") ==> r[..4] == siteUrl[..4];
      r
  }

  /** For a site address beginning "http", making an address absolute twice is the
      same as once, an address beginning "http" is kept as it is, and a relative path
      ends up exactly after the site address. */
  lemma AbsoluteIdempotent(path: string, siteUrl: string)
    requires StartsWith(siteUrl, "http")
    ensures Absolute(Absolute(path, siteUrl), siteUrl) == Absolute(path, siteUrl)
    ensures StartsWith(path, "http") ==> Absolute(path, siteUrl) == path
    ensures !StartsWith(path, "http") ==> Absolute(path, siteUrl) == siteUrl + path
  {
  }

  /** `fullImage`: no image (or an empty one) falls back to the site's default picture. */
  function FullImage(image: Option<string>, siteUrl: string): (r: string)
    ensures !TruthyText(image) ==> r == siteUrl + "/default-og-image.jpg"
    ensures TruthyText(image) ==> r == Absolute(image.value, siteUrl)
  {
    if TruthyText(image) then Absolute(image.value, siteUrl) else siteUrl + "/default-og-image.jpg"
  }

  /** `fullCanonical`: absent without a canonical address, absolute otherwise. */
  function FullCanonical(canonical: Option<string>, siteUrl: string): (r: Option<string>)
    ensures r.None? <==> !TruthyText(canonical)
    ensures r.Some? ==> r.value == Absolute(canonical.value, siteUrl) && r.value != ""
  {
    if TruthyText(canonical) then Some(Absolute(canonical.value, siteUrl)) else None
  }

  /** The image and the canonical address use the same rule, and both begin "http"
      whenever the site address does. */
  lemma AddressesAreAbsolute(p: Props)
    requires StartsWith(p.siteUrl, "http")
    ensures StartsWith(FullImage(p.image, p.siteUrl), "http")
    ensures FullCanonical(p.canonical, p.siteUrl).Some? ==>
      StartsWith(FullCanonical(p.canonical, p.siteUrl).value, "http")
    ensures p.canonical == p.image && TruthyText(p.image) ==>
      FullCanonical(p.canonical, p.siteUrl) == Some(FullImage(p.image, p.siteUrl))
  {
    var fallback := p.siteUrl + "/default-og-image.jpg";
    assert fallback[..4] == p.siteUrl[..4];
  }

  datatype Person = Person(name: string, url: Option<string>)

  /** The JSON-LD object `generateStructuredData` returns. */
  datatype StructuredData =
    | ArticleData(headline: string, description: string, image: string, author: Option<Person>,
                  publisherName: string, publisherUrl: string, logoUrl: string,
                  datePublished: string, dateModified: string, pageId: string,
                  articleSection: Option<string>, keywords: string)
    | WebSiteData(name: string, url: string, description: string, searchTarget: string,
                  queryInput: string)

  function StructuredDataOf(p: Props): StructuredData {
    if p.pageType == Article && TruthyText(p.publishedAt) then
      ArticleData(p.title, p.description, FullImage(p.image, p.siteUrl),
                  if p.author.Some? then Some(Person(p.author.value.name, p.author.value.url)) else None,
                  p.siteName, p.siteUrl, p.siteUrl + "/logo.png",
                  p.publishedAt.value, OrElse(p.modifiedAt, p.publishedAt.value),
                  OrElse(FullCanonical(p.canonical, p.siteUrl), p.siteUrl),
                  p.section, Join(p.tags, ", "))
    else
      WebSiteData(p.siteName, p.siteUrl, p.description,
                  p.siteUrl + "/search?q={search_term_string}", "required name=search_term_string")
  }

  /** An article page with a publication date describes the article: its modification
      date falls back to the publication date, its page id to the site address, and the
      keywords are the tags joined by ", ". Every other page describes the site with
      its search action. */
  lemma StructuredDataProps(p: Props)
    ensures StructuredDataOf(p).ArticleData? <==> p.pageType == Article && TruthyText(p.publishedAt)
    ensures var d := StructuredDataOf(p);
      d.ArticleData? ==>
        d.headline == p.title && d.datePublished == p.publishedAt.value
        && (!TruthyText(p.modifiedAt) ==> d.dateModified == d.datePublished)
        && (TruthyText(p.modifiedAt) ==> d.dateModified == p.modifiedAt.value)
        && (!TruthyText(p.canonical) ==> d.pageId == p.siteUrl)
        && (TruthyText(p.canonical) ==> d.pageId == Absolute(p.canonical.value, p.siteUrl))
        && d.image == FullImage(p.image, p.siteUrl)
        && d.keywords == Join(p.tags, ", ")
        && (d.author.Some? <==> p.author.Some?)
    ensures var d := StructuredDataOf(p);
      d.WebSiteData? ==>
        d.name == p.siteName && d.url == p.siteUrl
        && d.searchTarget == p.siteUrl + "/search?q={search_term_string}"
  {
  }

  /** The robots directive: written only when indexing or following is switched off,
      and then naming the choice for each. */
  function Robots(noindex: bool, nofollow: bool): (r: Option<string>)
    ensures r.None? <==> !noindex && !nofollow
    ensures noindex && !nofollow ==> r == Some("noindex, follow")
    ensures !noindex && nofollow ==> r == Some("index, nofollow")
    ensures noindex && nofollow ==> r == Some("noindex, nofollow")
  {
    if noindex || nofollow then
      var a := if noindex then "noindex" else "index";
      var b := if nofollow then "nofollow" else "follow";
      assert "noindex" + ", " + "follow" == "noindex, follow";
      assert "index" + ", " + "nofollow" == "index, nofollow";
      assert "noindex" + ", " + "nofollow" == "noindex, nofollow";
      Some(a + ", " + b)
    else None
  }
}
