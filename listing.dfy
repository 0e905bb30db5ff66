/**
  The listing shared by the RSS feed (src/pages/rss.xml.ts) and the sitemap
  (src/pages/sitemap.xml.ts): the loop over the `pixiv` collection that keeps
  the entries with data and a truthy `data.id` and replaces that id by the
  parsed entry id, then the sort by creation date, newest first. Creation
  dates are integer timestamps.
*/
module Listing {
  import opened Wrappers
  import Decimal

  /** The part of an entry's data the pages read; a `data.id` of 0 is falsy. */
  datatype ArtworkData = ArtworkData(id: int, title: string, createDate: int)

  /** A collection entry: its id (the data file's name) and its data, if any. */
  datatype Entry = Entry(id: string, data: Option<ArtworkData>)

  /** A listed artwork: `{...data, id: parseInt(entry.id)}`; None is NaN. */
  datatype Artwork = Artwork(id: Option<int>, title: string, createDate: int)

  /** The loop's test `artworkData && artworkData.id`. */
  predicate Kept(e: Entry) {
    e.data.Some? && e.data.value.id != 0
  }

  /** The record pushed for a kept entry. */
  function Record(e: Entry): Artwork
    requires e.data.Some?
  {
    Artwork(Decimal.ParseInt(e.id), e.data.value.title, e.data.value.createDate)
  }

  /** The records the loop pushes for `entries`, in collection order. */
  function KeptRecords(entries: seq<Entry>): seq<Artwork>
    decreases |entries|
  {
    if entries == [] then []
    else
      var e := entries[|entries| - 1];
      KeptRecords(entries[..|entries| - 1]) + (if Kept(e) then [Record(e)] else [])
  }

  /** The number of kept entries. */
  function KeptCount(entries: seq<Entry>): nat
    decreases |entries|
  {
    if entries == [] then 0
    else KeptCount(entries[..|entries| - 1]) + (if Kept(entries[|entries| - 1]) then 1 else 0)
  }

  /** The push loop over the collection. */
  method CollectArtworks(entries: seq<Entry>) returns (artworks: seq<Artwork>)
    ensures artworks == KeptRecords(entries)
  {
    artworks := [];
    for i := 0 to |entries|
      invariant artworks == KeptRecords(entries[..i])
    {
      var entry := entries[i];
      assert entries[..i + 1][..i] == entries[..i];
      if entry.data.Some? && entry.data.value.id != 0 {
        artworks := artworks + [Record(entry)];
      }
    }
    assert entries[..|entries|] == entries;
  }

  /**
    The kept records: one per kept entry and none for any other entry, each
    carrying its entry's parsed id, title and date.
  */
  lemma {:induction false} KeptRecordsSpec(entries: seq<Entry>)
    ensures |KeptRecords(entries)| == KeptCount(entries) <= |entries|
    ensures forall i :: 0 <= i < |entries| && Kept(entries[i]) ==> Record(entries[i]) in KeptRecords(entries)
    ensures forall a :: a in KeptRecords(entries) ==>
      exists i :: 0 <= i < |entries| && Kept(entries[i]) && a == Record(entries[i])
    decreases |entries|
  {
    if entries != [] {
      var init := entries[..|entries| - 1];
      KeptRecordsSpec(init);
      assert forall i :: 0 <= i < |init| ==> init[i] == entries[i];
    }
  }

  /** A kept entry whose id is a numeral gets that number as its id. */
  lemma RecordId(e: Entry, n: int)
    requires Kept(e) && e.id == Decimal.IntToString(n)
    ensures Record(e).id == Some(n)
  {
    Decimal.ParseIntRoundTrip(n);
  }

  // ---------------------------------------------------------------------
  // Newest first

  /** Non-increasing creation dates, as the comparator `b - a` asks for. */
  predicate NewestFirst(s: seq<Artwork>) {
    forall i, j :: 0 <= i < j < |s| ==> s[i].createDate >= s[j].createDate
  }

  /** Inserts `a` before the first record that is not newer than it. */
  function Insert(a: Artwork, s: seq<Artwork>): seq<Artwork>
    decreases |s|
  {
    if s == [] || a.createDate >= s[0].createDate then [a] + s
    else [s[0]] + Insert(a, s[1..])
  }

  /** `artworks.sort((a, b) => b.date - a.date)`, as an insertion sort. */
  function SortNewestFirst(s: seq<Artwork>): seq<Artwork>
    decreases |s|
  {
    if s == [] then [] else Insert(s[0], SortNewestFirst(s[1..]))
  }

  lemma {:induction false} InsertPermutes(a: Artwork, s: seq<Artwork>)
    ensures multiset(Insert(a, s)) == multiset(s) + multiset{a}
    decreases |s|
  {
    if s != [] && a.createDate < s[0].createDate {
      InsertPermutes(a, s[1..]);
      assert s == [s[0]] + s[1..];
    }
  }

  lemma {:induction false} InsertSorted(a: Artwork, s: seq<Artwork>)
    requires NewestFirst(s)
    ensures NewestFirst(Insert(a, s))
    decreases |s|
  {
    if s != [] && a.createDate < s[0].createDate {
      InsertSorted(a, s[1..]);
      InsertPermutes(a, s[1..]);
      var r := Insert(a, s[1..]);
      forall k | 0 <= k < |r|
        ensures s[0].createDate >= r[k].createDate
      {
        assert r[k] in multiset(r);
        assert r[k] in multiset(s[1..]) + multiset{a};
        if r[k] != a {
          assert r[k] in s[1..];
        }
      }
    }
  }

  /** The sorted list is newest first and holds exactly the records it was given. */
  lemma {:induction false} SortSpec(s: seq<Artwork>)
    ensures NewestFirst(SortNewestFirst(s))
    ensures multiset(SortNewestFirst(s)) == multiset(s)
    decreases |s|
  {
    if s != [] {
      SortSpec(s[1..]);
      InsertSorted(s[0], SortNewestFirst(s[1..]));
      InsertPermutes(s[0], SortNewestFirst(s[1..]));
      assert s == [s[0]] + s[1..];
    }
  }

  /** The list both pages render: the kept records, newest first. */
  function Listed(entries: seq<Entry>): seq<Artwork> {
    SortNewestFirst(KeptRecords(entries))
  }

  /** The collecting loop followed by the sort. */
  method ListArtworks(entries: seq<Entry>) returns (artworks: seq<Artwork>)
    ensures artworks == Listed(entries)
    ensures NewestFirst(artworks) && multiset(artworks) == multiset(KeptRecords(entries))
  {
    artworks := CollectArtworks(entries);
    SortSpec(artworks);
    artworks := SortNewestFirst(artworks);
  }

  /** The rendered list: newest first, one record per kept entry and nothing else. */
  lemma ListedSpec(entries: seq<Entry>)
    ensures NewestFirst(Listed(entries))
    ensures multiset(Listed(entries)) == multiset(KeptRecords(entries))
    ensures |Listed(entries)| == KeptCount(entries)
  {
    SortSpec(KeptRecords(entries));
    KeptRecordsSpec(entries);
    assert |Listed(entries)| == |multiset(Listed(entries))|;
  }

  // ---------------------------------------------------------------------
  // Site addresses and responses

  const SiteRoot: string := "https://sesese.se/"

  /** The page of the artwork at 0-based position `index`: `https://sesese.se/{index + 1}`. */
  function ArtworkPageUrl(index: nat): string {
    SiteRoot + Decimal.NatToString(index + 1)
  }

  /** Different positions get different pages, and the page number reads back as `index + 1`. */
  lemma ArtworkPageUrlSpec(index: nat, other: nat)
    ensures ArtworkPageUrl(index)[..|SiteRoot|] == SiteRoot
    ensures Decimal.ParseInt(ArtworkPageUrl(index)[|SiteRoot|..]) == Some(index + 1)
    ensures ArtworkPageUrl(index) == ArtworkPageUrl(other) ==> index == other
  {
    var s, t := Decimal.NatToString(index + 1), Decimal.NatToString(other + 1);
    assert (SiteRoot + s)[|SiteRoot|..] == s;
    assert (SiteRoot + t)[|SiteRoot|..] == t;
    Decimal.ParseIntRoundTrip(index + 1);
    Decimal.NatToStringInjective(index + 1, other + 1);
  }

  /** An HTTP response: status, Content-Type, and the document it carries. */
  datatype Response<B> = Response(status: int, contentType: string, body: B)

  /** `new Response(body, { status: 200, headers: { 'Content-Type': 'application/xml' } })`. */
  function XmlResponse<B>(body: B): Response<B> {
    Response(200, "application/xml", body)
  }
}
