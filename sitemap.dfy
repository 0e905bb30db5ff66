/**
  The sitemap (src/pages/sitemap.xml.ts), following the "XML tag
  definitions" of the Sitemaps protocol 0.9: the home page and the about
  page, then one `<url>` per listed artwork in listing order. Priorities
  are kept in tenths; dates stay integer timestamps.
*/
module Sitemap {
  import opened Wrappers
  import Decimal
  import Listing

  /** The `<changefreq>` values of the protocol. */
  datatype ChangeFreq = Always | Hourly | Daily | Weekly | Monthly | Yearly | Never

  /** A `<url>`: location, optional last modification, change frequency, priority in tenths. */
  datatype Url = Url(loc: string, lastmod: Option<int>, changefreq: ChangeFreq, priorityTenths: nat)

  const Home: Url := Url("https://sesese.se/", None, Daily, 10)
  const About: Url := Url("https://sesese.se/about", None, Monthly, 8)

  /** The `<url>` of the artwork at 0-based position `index`. */
  function ArtworkUrl(a: Listing.Artwork, index: nat): Url {
    Url(Listing.ArtworkPageUrl(index), Some(a.createDate), Monthly, 9)
  }

  function ArtworkUrls(artworks: seq<Listing.Artwork>): (r: seq<Url>)
    ensures |r| == |artworks|
    ensures forall i :: 0 <= i < |artworks| ==> r[i] == ArtworkUrl(artworks[i], i)
  {
    seq(|artworks|, i requires 0 <= i < |artworks| => ArtworkUrl(artworks[i], i))
  }

  /** The `<urlset>`. */
  function UrlSet(entries: seq<Listing.Entry>): seq<Url> {
    [Home, About] + ArtworkUrls(Listing.Listed(entries))
  }

  /** GET /sitemap.xml. */
  function Get(entries: seq<Listing.Entry>): Listing.Response<seq<Url>> {
    Listing.XmlResponse(UrlSet(entries))
  }

  // ---------------------------------------------------------------------
  // Properties of the sitemap

  /** The response is a 200 with Content-Type `application/xml`, carrying the url set. */
  lemma GetResponds(entries: seq<Listing.Entry>)
    ensures Get(entries).status == 200
    ensures Get(entries).contentType == "application/xml"
    ensures Get(entries).body == UrlSet(entries)
  {
  }

  /**
    Two fixed urls, the home page daily at priority 1.0 and the about page
    monthly at 0.8, then for the artwork at position `i` the page
    `https://sesese.se/{i+1}`, monthly at 0.9, dated by its creation date;
    2 urls more than there are kept entries, and every priority is within
    the protocol's range 0.0 to 1.0.
  */
  lemma UrlSetShape(entries: seq<Listing.Entry>)
    ensures var urls := UrlSet(entries);
      && |urls| == 2 + Listing.KeptCount(entries)
      && urls[0] == Url("https://sesese.se/", None, Daily, 10)
      && urls[1] == Url("https://sesese.se/about", None, Monthly, 8)
      && (forall i :: 2 <= i < |urls| ==>
            urls[i].loc == Listing.SiteRoot + Decimal.NatToString(i - 1)
            && urls[i].changefreq == Monthly && urls[i].priorityTenths == 9
            && urls[i].lastmod == Some(Listing.Listed(entries)[i - 2].createDate))
      && (forall i :: 0 <= i < |urls| ==> urls[i].priorityTenths <= 10)
  {
    Listing.ListedSpec(entries);
    var listed := Listing.Listed(entries);
    var urls := UrlSet(entries);
    forall i | 2 <= i < |urls|
      ensures urls[i] == ArtworkUrl(listed[i - 2], i - 2)
    {
      assert urls[i] == ArtworkUrls(listed)[i - 2];
    }
  }

  /** The url at position `i >= 2` is the one of the listed artwork at position `i - 2`. */
  lemma UrlAt(entries: seq<Listing.Entry>, i: nat)
    requires 2 <= i < |UrlSet(entries)|
    ensures UrlSet(entries)[i] == ArtworkUrl(Listing.Listed(entries)[i - 2], i - 2)
  {
    assert UrlSet(entries)[i] == ArtworkUrls(Listing.Listed(entries))[i - 2];
  }

  /** After the two fixed urls, the artwork urls come newest first. */
  lemma UrlSetNewestFirst(entries: seq<Listing.Entry>)
    ensures var urls := UrlSet(entries);
      forall i, j :: 2 <= i < j < |urls| ==> urls[i].lastmod.Some? && urls[i].lastmod.value >= urls[j].lastmod.value
  {
    Listing.ListedSpec(entries);
    var urls := UrlSet(entries);
    forall i, j | 2 <= i < j < |urls|
      ensures urls[i].lastmod.Some? && urls[i].lastmod.value >= urls[j].lastmod.value
    {
      UrlAt(entries, i);
      UrlAt(entries, j);
    }
  }

  /** No two urls of the set share a location. */
  lemma UrlSetLocationsDistinct(entries: seq<Listing.Entry>)
    ensures var urls := UrlSet(entries);
      forall i, j :: 0 <= i < j < |urls| ==> urls[i].loc != urls[j].loc
  {
    var urls := UrlSet(entries);
    forall i, j | 0 <= i < j < |urls|
      ensures urls[i].loc != urls[j].loc
    {
      if i >= 2 {
        UrlAt(entries, i);
        UrlAt(entries, j);
        Listing.ArtworkPageUrlSpec(i - 2, j - 2);
      } else if j >= 2 {
        UrlAt(entries, j);
        FixedUrlsAreNotArtworks(j - 2);
      }
    }
  }

  /** Neither fixed location is an artwork page. */
  lemma FixedUrlsAreNotArtworks(index: nat)
    ensures Listing.ArtworkPageUrl(index) != Home.loc
    ensures Listing.ArtworkPageUrl(index) != About.loc
  {
    ArtworkLocIsNumbered(index);
    assert |Home.loc| == |Listing.SiteRoot|;
    assert About.loc[|Listing.SiteRoot|] == 'a';
  }

  /** An artwork's location is the site root followed by a non-empty numeral. */
  lemma ArtworkLocIsNumbered(index: nat)
    ensures var loc := Listing.ArtworkPageUrl(index);
      |loc| > |Listing.SiteRoot| && loc[..|Listing.SiteRoot|] == Listing.SiteRoot
      && Decimal.IsDigit(loc[|Listing.SiteRoot|])
  {
    var s := Decimal.NatToString(index + 1);
    assert Listing.ArtworkPageUrl(index)[|Listing.SiteRoot|] == s[0];
  }
}
