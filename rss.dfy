/**
  The RSS 2.0 feed (src/pages/rss.xml.ts): one `<item>` per listed artwork,
  in listing order, linking to the artwork's numbered page and embedding
  its first image. The document is modelled as its channel constants and
  its item sequence, not as XML text; dates stay integer timestamps.
*/
module Rss {
  import opened Wrappers
  import Decimal
  import Listing

  /** The elements of an `<item>` (section "Elements of <item>" of RSS 2.0). */
  datatype Item = Item(
    title: string,
    link: string,
    guid: string,
    pubDate: int,
    description: string,
    encoded: string)

  datatype Channel = Channel(
    title: string,
    link: string,
    description: string,
    language: string,
    selfLink: string,
    items: seq<Item>)

  /** `${artwork.id}` in a template: the number, or `NaN`. */
  function IdText(id: Option<int>): string {
    if id.Some? then Decimal.IntToString(id.value) else "NaN"
  }

  /** The first image of an artwork on the site. */
  function ImageUrl(id: Option<int>): string {
    "https://sesese.se/content/images/pixiv/" + IdText(id) + "_1.jpg"
  }

  /** The `<img>` element of the description and the encoded content; the title goes in unescaped. */
  function ImageTag(a: Listing.Artwork): string {
    "<img src=\"" + ImageUrl(a.id) + "\" alt=\"" + a.title + "\" />"
  }

  /** The item of the artwork at 0-based position `index`. */
  function ItemOf(a: Listing.Artwork, index: nat): Item {
    Item(a.title, Listing.ArtworkPageUrl(index), Listing.ArtworkPageUrl(index), a.createDate, ImageTag(a), ImageTag(a))
  }

  function Items(artworks: seq<Listing.Artwork>): (r: seq<Item>)
    ensures |r| == |artworks|
    ensures forall i :: 0 <= i < |artworks| ==> r[i] == ItemOf(artworks[i], i)
  {
    seq(|artworks|, i requires 0 <= i < |artworks| => ItemOf(artworks[i], i))
  }

  function Feed(entries: seq<Listing.Entry>): Channel {
    Channel(
      "Sesese", "https://sesese.se", "Pixiv Artwork Collection", "zh-CN",
      "https://sesese.se/rss.xml", Items(Listing.Listed(entries)))
  }

  /** GET /rss.xml. */
  function Get(entries: seq<Listing.Entry>): Listing.Response<Channel> {
    Listing.XmlResponse(Feed(entries))
  }

  // ---------------------------------------------------------------------
  // Properties of the feed

  /** The response is a 200 with Content-Type `application/xml`, carrying the feed. */
  lemma GetResponds(entries: seq<Listing.Entry>)
    ensures Get(entries).status == 200
    ensures Get(entries).contentType == "application/xml"
    ensures Get(entries).body.items == Items(Listing.Listed(entries))
  {
  }

  /**
    One item per kept entry, newest first. The item at position `i` has link
    and guid both `https://sesese.se/{i+1}`, the artwork's title and date,
    and a description equal to its encoded content.
  */
  lemma FeedItems(entries: seq<Listing.Entry>)
    ensures var items := Feed(entries).items;
      && |items| == Listing.KeptCount(entries)
      && (forall i :: 0 <= i < |items| ==>
            items[i].link == items[i].guid == Listing.SiteRoot + Decimal.NatToString(i + 1)
            && items[i].description == items[i].encoded == ImageTag(Listing.Listed(entries)[i])
            && items[i].title == Listing.Listed(entries)[i].title)
      && (forall i, j :: 0 <= i < j < |items| ==> items[i].pubDate >= items[j].pubDate)
  {
    Listing.ListedSpec(entries);
  }

  /**
    The image tag holds the image url of the artwork as its src and the
    title, unescaped, as its alt, each at a fixed place.
  */
  lemma ImageTagParts(a: Listing.Artwork)
    ensures var tag, url := ImageTag(a), ImageUrl(a.id);
      && |tag| == 21 + |url| + |a.title|
      && tag[..10] == "<img src=\""
      && tag[10..10 + |url|] == url
      && tag[10 + |url|..17 + |url|] == "\" alt=\""
      && tag[17 + |url|..|tag| - 4] == a.title
      && tag[|tag| - 4..] == "\" />"
  {
    var url := ImageUrl(a.id);
    var p, q, t := "<img src=\"", "\" alt=\"", "\" />";
    var b := p + url;
    var c := b + q;
    var d := c + a.title;
    var tag := d + t;
    assert tag == ImageTag(a);
    SplitAt(d, t);
    SplitAt(c, a.title);
    SplitAt(b, q);
    SplitAt(p, url);
    Slice(tag, d, 0, |c|);
    Slice(tag, d, |c|, |d|);
    Slice(tag, d, 0, |b|);
    Slice(c, b, 0, |p|);
    Slice(c, b, |p|, |b|);
    Slice(tag, c, |b|, |c|);
    Slice(tag, c, 0, |p|);
    Slice(tag, c, |p|, |b|);
  }

  /** The two halves of a concatenation. */
  lemma SplitAt(x: string, y: string)
    ensures (x + y)[..|x|] == x && (x + y)[|x|..] == y
  {
  }

  /** A slice inside a prefix is the same slice of the whole. */
  lemma Slice(s: string, prefix: string, i: nat, j: nat)
    requires i <= j <= |prefix| <= |s| && s[..|prefix|] == prefix
    ensures s[i..j] == prefix[i..j]
  {
    forall k | 0 <= k < j - i
      ensures s[i..j][k] == prefix[i..j][k]
    {
      assert s[i + k] == s[..|prefix|][i + k];
    }
  }

  /** No two items share a link, so no two share a guid. */
  lemma LinksDistinct(entries: seq<Listing.Entry>)
    ensures var items := Feed(entries).items;
      forall i, j :: 0 <= i < j < |items| ==> items[i].link != items[j].link && items[i].guid != items[j].guid
  {
    var items := Feed(entries).items;
    forall i, j | 0 <= i < j < |items|
      ensures items[i].link != items[j].link
    {
      Listing.ArtworkPageUrlSpec(i, j);
    }
  }

  /**
    The image of the item for an artwork with a numeric id is
    `https://sesese.se/content/images/pixiv/{id}_1.jpg`, and different ids
    give different images.
  */
  lemma ImageUrlInjective(m: int, n: int)
    ensures ImageUrl(Some(m)) == "https://sesese.se/content/images/pixiv/" + Decimal.IntToString(m) + "_1.jpg"
    ensures ImageUrl(Some(m)) == ImageUrl(Some(n)) ==> m == n
  {
    var p := "https://sesese.se/content/images/pixiv/";
    var a, b := Decimal.IntToString(m), Decimal.IntToString(n);
    if ImageUrl(Some(m)) == ImageUrl(Some(n)) {
      assert |a| == |b|;
      assert (p + a + "_1.jpg")[|p|..|p| + |a|] == a;
      assert (p + b + "_1.jpg")[|p|..|p| + |b|] == b;
      Decimal.IntToStringInjective(m, n);
    }
  }
}
