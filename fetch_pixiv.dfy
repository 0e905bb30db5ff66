/**
  The single-artwork fetcher (fetch_pixiv.py): the metadata record built
  from an `illust_detail` result, the avatar and page downloads of
  `fetch_artwork` with the image list they produce, and the exits of the
  command-line entry point. The Pixiv API is a function from artwork id to
  detail result; downloads go through an object that records every call
  and whose outcome is decided by an oracle on the call. The JSON files
  written at the end are represented by the metadata record they hold.
*/
module Fetcher {
  import opened Wrappers
  import Decimal

  datatype Tag = Tag(name: string)

  datatype PixivUser = PixivUser(id: int, name: string, account: string, mediumProfileImage: string)

  /**
    The `illust` of a detail result. The page URLs are read with `.get`, so
    each may be missing: `meta_single_page['original_image_url']` and, per
    entry of `meta_pages`, `image_urls['original']`.
  */
  datatype Illust = Illust(
    id: int,
    title: string,
    caption: string,
    createDate: string,
    tags: seq<Tag>,
    pageCount: int,
    user: PixivUser,
    totalBookmarks: int,
    totalView: int,
    singlePageOriginal: Option<string>,
    metaPages: seq<Option<string>>)

  /** What `api.illust_detail(id)` gives: a result with an `illust`, one without, or an exception. */
  datatype Detail = Found(illust: Illust) | Missing | ApiException

  datatype Author = Author(id: int, name: string, account: string, profileImageUrl: string)

  /** The metadata dictionary written to the two JSON files. */
  datatype Metadata = Metadata(
    id: int,
    title: string,
    caption: string,
    createDate: string,
    tags: seq<string>,
    pageCount: int,
    author: Author,
    totalBookmarks: int,
    totalView: int,
    images: seq<string>,
    isMuted: bool)

  /** Python truthiness of an optional URL: present and non-empty. */
  predicate Truthy(url: Option<string>) {
    url.Some? && url.value != ""
  }

  // ---------------------------------------------------------------------
  // The metadata record

  /** `[tag.name for tag in artwork.tags]`. */
  function TagNames(tags: seq<Tag>): (r: seq<string>)
    ensures |r| == |tags|
    ensures forall i :: 0 <= i < |tags| ==> r[i] == tags[i].name
  {
    if tags == [] then [] else [tags[0].name] + TagNames(tags[1..])
  }

  /** create_metadata. */
  function CreateMetadata(a: Illust): Metadata {
    Metadata(
      a.id, a.title, a.caption, a.createDate, TagNames(a.tags), a.pageCount,
      Author(a.user.id, a.user.name, a.user.account, a.user.mediumProfileImage),
      a.totalBookmarks, a.totalView, [], false)
  }

  /**
    The fresh record has no images, is not muted, lists the tag names in
    order, takes the author from the user with the medium profile image as
    its picture, and copies the scalar fields.
  */
  lemma CreateMetadataFields(a: Illust)
    ensures var m := CreateMetadata(a);
      && m.images == [] && !m.isMuted
      && |m.tags| == |a.tags| && (forall i :: 0 <= i < |a.tags| ==> m.tags[i] == a.tags[i].name)
      && m.author == Author(a.user.id, a.user.name, a.user.account, a.user.mediumProfileImage)
      && m.id == a.id && m.title == a.title && m.caption == a.caption && m.createDate == a.createDate
      && m.pageCount == a.pageCount && m.totalBookmarks == a.totalBookmarks && m.totalView == a.totalView
  {
  }

  // ---------------------------------------------------------------------
  // Paths

  const AvatarFilename: string := "author_profile.jpg"

  /** `f"image_{i+1}.jpg"` for the 0-based page index `i`. */
  function ImageFilename(i: nat): string {
    "image_" + Decimal.NatToString(i + 1) + ".jpg"
  }

  /** `os.path.join(dir, filename)`. */
  function Join(dir: string, filename: string): string {
    dir + "/" + filename
  }

  /** The content images directory of an artwork, `src/content/images/pixiv/{id}`. */
  function ContentDir(id: string): string {
    "src/content/images/pixiv/" + id
  }

  /** The backup directory of an artwork, `artworks/{id}`. */
  function BackupDir(id: string): string {
    "artworks/" + id
  }

  /** The path recorded in the metadata, `/src/content/images/pixiv/{id}/{filename}`. */
  function RecordedPath(id: string, filename: string): string {
    "/src/content/images/pixiv/" + id + "/" + filename
  }

  /** The recorded path is the content-directory path that download_file returns, made absolute. */
  lemma RecordedPathIsContentPath(id: string, filename: string)
    ensures RecordedPath(id, filename) == "/" + Join(ContentDir(id), filename)
  {
  }

  lemma ImageFilenameInjective(i: nat, j: nat)
    ensures ImageFilename(i) == ImageFilename(j) ==> i == j
  {
    if ImageFilename(i) == ImageFilename(j) {
      var a, b := Decimal.NatToString(i + 1), Decimal.NatToString(j + 1);
      assert ("image_" + a + ".jpg")[6..|a| + 6] == a;
      assert ("image_" + b + ".jpg")[6..|b| + 6] == b;
      assert |a| == |b|;
      Decimal.NatToStringInjective(i + 1, j + 1);
    }
  }

  // ---------------------------------------------------------------------
  // Downloads

  /** One `download_file(url, output_dir, filename)` call. */
  datatype Download = Download(url: string, dir: string, filename: string)

  /** The downloader: the calls made so far, and which calls succeed. */
  class Downloader {
    var log: seq<Download>
    const succeeds: Download -> bool

    constructor (outcome: Download -> bool)
      ensures log == [] && succeeds == outcome
    {
      log := [];
      succeeds := outcome;
    }

    /** download_file: the joined path on success, None once any error was caught. */
    method DownloadFile(url: string, outputDir: string, filename: string) returns (path: Option<string>)
      modifies this`log
      ensures log == old(log) + [Download(url, outputDir, filename)]
      ensures path == if succeeds(Download(url, outputDir, filename)) then Some(Join(outputDir, filename)) else None
    {
      log := log + [Download(url, outputDir, filename)];
      path := if succeeds(Download(url, outputDir, filename)) then Some(Join(outputDir, filename)) else None;
    }
  }

  /** The image URLs fetch_artwork walks: the single page's for a one-page work, else one per meta page. */
  function PageUrls(a: Illust): seq<Option<string>> {
    if a.pageCount == 1 then [a.singlePageOriginal] else a.metaPages
  }

  /** The downloads made for page `i`: none without a URL, else backup first, then content. */
  function PageStep(id: string, url: Option<string>, i: nat): seq<Download> {
    if Truthy(url) then
      [Download(url.value, BackupDir(id), ImageFilename(i)), Download(url.value, ContentDir(id), ImageFilename(i))]
    else []
  }

  /** The downloads made for `urls`, in page order. */
  function PageDownloads(id: string, urls: seq<Option<string>>): seq<Download>
    decreases |urls|
  {
    if urls == [] then []
    else PageDownloads(id, urls[..|urls| - 1]) + PageStep(id, urls[|urls| - 1], |urls| - 1)
  }

  /** Every download of fetch_artwork once the detail was found: the avatar twice, then the pages. */
  function Downloads(id: string, a: Illust): seq<Download> {
    [Download(a.user.mediumProfileImage, BackupDir(id), AvatarFilename),
     Download(a.user.mediumProfileImage, ContentDir(id), AvatarFilename)]
      + PageDownloads(id, PageUrls(a))
  }

  /** Page `i` is recorded iff it has a URL and its content-directory download succeeded. */
  predicate Kept(id: string, url: Option<string>, i: nat, succeeds: Download -> bool) {
    Truthy(url) && succeeds(Download(url.value, ContentDir(id), ImageFilename(i)))
  }

  /** The 0-based indices of the recorded pages, in page order. */
  function KeptPages(id: string, urls: seq<Option<string>>, succeeds: Download -> bool): seq<nat>
    decreases |urls|
  {
    if urls == [] then []
    else
      KeptPages(id, urls[..|urls| - 1], succeeds)
        + (if Kept(id, urls[|urls| - 1], |urls| - 1, succeeds) then [|urls| - 1] else [])
  }

  /** The recorded image paths of the pages `pages`. */
  function ImagePaths(id: string, pages: seq<nat>): (r: seq<string>)
    ensures |r| == |pages|
    ensures forall k :: 0 <= k < |pages| ==> r[k] == RecordedPath(id, ImageFilename(pages[k]))
    decreases |pages|
  {
    if pages == [] then []
    else ImagePaths(id, pages[..|pages| - 1]) + [RecordedPath(id, ImageFilename(pages[|pages| - 1]))]
  }

  /** The avatar recorded: the local path iff its content-directory download succeeded. */
  function AvatarUrl(id: string, a: Illust, succeeds: Download -> bool): string {
    if succeeds(Download(a.user.mediumProfileImage, ContentDir(id), AvatarFilename))
    then RecordedPath(id, AvatarFilename)
    else a.user.mediumProfileImage
  }

  /** The metadata fetch_artwork writes for artwork `id`. */
  function FinalMetadata(id: string, a: Illust, succeeds: Download -> bool): Metadata {
    var m := CreateMetadata(a);
    m.(author := m.author.(profileImageUrl := AvatarUrl(id, a, succeeds)),
       images := ImagePaths(id, KeptPages(id, PageUrls(a), succeeds)))
  }

  /**
    fetch_artwork: False, with nothing downloaded, when the detail has no
    `illust` or the API raised; otherwise the avatar and the pages are
    downloaded, and the metadata is written unless a write raises.
    `writesOk` says whether the final writes succeed; `written` is the
    metadata the JSON files then hold.
  */
  method FetchArtwork(api: string -> Detail, artworkId: string, dl: Downloader, writesOk: bool)
    returns (ok: bool, written: Option<Metadata>)
    modifies dl`log
    ensures !api(artworkId).Found? ==> !ok && written == None && dl.log == old(dl.log)
    ensures api(artworkId).Found? ==> dl.log == old(dl.log) + Downloads(artworkId, api(artworkId).illust)
    ensures api(artworkId).Found? ==> ok == writesOk
    ensures ok <==> written.Some?
    ensures ok ==> written == Some(FinalMetadata(artworkId, api(artworkId).illust, dl.succeeds))
  {
    var detail := api(artworkId);
    if !detail.Found? {
      return false, None;
    }
    var metadata := DownloadAll(dl, artworkId, detail.illust);
    if !writesOk {
      return false, None;
    }
    ok, written := true, Some(metadata);
  }

  /** The part of fetch_artwork after the detail was found: the metadata record and every download. */
  method DownloadAll(dl: Downloader, artworkId: string, artwork: Illust) returns (metadata: Metadata)
    modifies dl`log
    ensures dl.log == old(dl.log) + Downloads(artworkId, artwork)
    ensures metadata == FinalMetadata(artworkId, artwork, dl.succeeds)
  {
    ghost var log0 := dl.log;
    metadata := CreateMetadata(artwork);
    metadata := DownloadAvatar(dl, artworkId, metadata);
    ghost var log1 := dl.log;
    metadata := DownloadImages(dl, artworkId, artwork, metadata);
    assert dl.log == log1 + PageDownloads(artworkId, PageUrls(artwork));
  }

  /**
    The avatar step of fetch_artwork: the medium profile image is downloaded
    to the backup and then the content directory, and the record points at
    the local copy iff the content download succeeded.
  */
  method DownloadAvatar(dl: Downloader, artworkId: string, metadata: Metadata) returns (result: Metadata)
    modifies dl`log
    ensures var url := metadata.author.profileImageUrl;
      && dl.log == old(dl.log) + [Download(url, BackupDir(artworkId), AvatarFilename),
                                  Download(url, ContentDir(artworkId), AvatarFilename)]
      && result == metadata.(author := metadata.author.(profileImageUrl :=
           if dl.succeeds(Download(url, ContentDir(artworkId), AvatarFilename))
           then RecordedPath(artworkId, AvatarFilename) else url))
  {
    result := metadata;
    var profileImageUrl := metadata.author.profileImageUrl;
    var _ := dl.DownloadFile(profileImageUrl, BackupDir(artworkId), AvatarFilename);
    var profilePath := dl.DownloadFile(profileImageUrl, ContentDir(artworkId), AvatarFilename);
    if profilePath.Some? {
      result := result.(author := result.author.(profileImageUrl := RecordedPath(artworkId, AvatarFilename)));
    }
  }

  /**
    The image step of fetch_artwork: the single page for a one-page work,
    else the loop over the meta pages. Starting from a record without
    images, the record ends up with the recorded paths of the kept pages.
  */
  method DownloadImages(dl: Downloader, artworkId: string, artwork: Illust, metadata: Metadata) returns (result: Metadata)
    requires metadata.images == []
    modifies dl`log
    ensures dl.log == old(dl.log) + PageDownloads(artworkId, PageUrls(artwork))
    ensures result == metadata.(images := ImagePaths(artworkId, KeptPages(artworkId, PageUrls(artwork), dl.succeeds)))
  {
    ghost var succeeds := dl.succeeds;
    if artwork.pageCount == 1 {
      SinglePage(artworkId, artwork.singlePageOriginal, succeeds);
      var recorded := DownloadPage(dl, artworkId, artwork.singlePageOriginal, 0);
      result := metadata;
      if recorded.Some? {
        result := result.(images := result.images + [recorded.value]);
      }
    } else {
      result := DownloadPages(dl, artworkId, artwork.metaPages, metadata);
      assert [] + ImagePaths(artworkId, KeptPages(artworkId, artwork.metaPages, succeeds))
          == ImagePaths(artworkId, KeptPages(artworkId, artwork.metaPages, succeeds));
    }
  }

  /**
    The `enumerate(meta_pages)` loop: each page with a URL is downloaded to
    the backup and the content directory, and its recorded path is appended
    when the content download succeeded.
  */
  method DownloadPages(dl: Downloader, artworkId: string, pages: seq<Option<string>>, metadata: Metadata)
    returns (result: Metadata)
    modifies dl`log
    ensures dl.log == old(dl.log) + PageDownloads(artworkId, pages)
    ensures result == metadata.(images := metadata.images + ImagePaths(artworkId, KeptPages(artworkId, pages, dl.succeeds)))
  {
    ghost var log0 := dl.log;
    ghost var succeeds := dl.succeeds;
    var added: seq<string> := [];
    for i := 0 to |pages|
      invariant dl.log == log0 + PageDownloads(artworkId, pages[..i])
      invariant added == ImagePaths(artworkId, KeptPages(artworkId, pages[..i], succeeds))
    {
      var recorded := DownloadPage(dl, artworkId, pages[i], i);
      PageLoopStep(artworkId, pages, i, succeeds, log0, dl.log, added, recorded);
      if recorded.Some? {
        added := added + [recorded.value];
      }
    }
    assert pages[..|pages|] == pages;
    result := metadata.(images := metadata.images + added);
  }

  /**
    One page of either branch: with a URL, the download to the backup
    directory and then to the content directory; the path to record is
    returned when the content download succeeded.
  */
  method DownloadPage(dl: Downloader, artworkId: string, imageUrl: Option<string>, i: nat)
    returns (recorded: Option<string>)
    modifies dl`log
    ensures dl.log == old(dl.log) + PageStep(artworkId, imageUrl, i)
    ensures recorded == if Kept(artworkId, imageUrl, i, dl.succeeds)
      then Some(RecordedPath(artworkId, ImageFilename(i))) else None
  {
    recorded := None;
    if Truthy(imageUrl) {
      var filename := ImageFilename(i);
      var _ := dl.DownloadFile(imageUrl.value, BackupDir(artworkId), filename);
      var imagePath := dl.DownloadFile(imageUrl.value, ContentDir(artworkId), filename);
      if imagePath.Some? {
        recorded := Some(RecordedPath(artworkId, filename));
      }
    } else {
      assert old(dl.log) + [] == old(dl.log);
    }
  }

  /** The one-page branch in terms of the page recursion. */
  lemma SinglePage(id: string, url: Option<string>, succeeds: Download -> bool)
    ensures PageDownloads(id, [url]) == PageStep(id, url, 0)
    ensures ImagePaths(id, KeptPages(id, [url], succeeds))
         == if Kept(id, url, 0, succeeds) then [RecordedPath(id, ImageFilename(0))] else []
  {
    assert [url][..0] == [];
  }

  lemma PagePrefixStep(id: string, urls: seq<Option<string>>, i: nat, succeeds: Download -> bool)
    requires i < |urls|
    ensures PageDownloads(id, urls[..i + 1]) == PageDownloads(id, urls[..i]) + PageStep(id, urls[i], i)
    ensures KeptPages(id, urls[..i + 1], succeeds)
         == KeptPages(id, urls[..i], succeeds) + (if Kept(id, urls[i], i, succeeds) then [i] else [])
  {
    assert urls[..i + 1][..i] == urls[..i];
  }

  /** One iteration of the page loop keeps its two invariants. */
  lemma PageLoopStep(id: string, pages: seq<Option<string>>, i: nat, succeeds: Download -> bool,
                     log0: seq<Download>, log: seq<Download>, added: seq<string>, recorded: Option<string>)
    requires i < |pages|
    requires log == log0 + PageDownloads(id, pages[..i]) + PageStep(id, pages[i], i)
    requires added == ImagePaths(id, KeptPages(id, pages[..i], succeeds))
    requires recorded == if Kept(id, pages[i], i, succeeds) then Some(RecordedPath(id, ImageFilename(i))) else None
    ensures log == log0 + PageDownloads(id, pages[..i + 1])
    ensures (if recorded.Some? then added + [recorded.value] else added)
         == ImagePaths(id, KeptPages(id, pages[..i + 1], succeeds))
  {
    var kept := KeptPages(id, pages[..i], succeeds);
    PagePrefixStep(id, pages, i, succeeds);
    if recorded.Some? {
      ImagePathsSnoc(id, kept, i);
    } else {
      assert kept + [] == kept;
    }
  }

  lemma ImagePathsSnoc(id: string, pages: seq<nat>, i: nat)
    ensures ImagePaths(id, pages + [i]) == ImagePaths(id, pages) + [RecordedPath(id, ImageFilename(i))]
  {
    assert (pages + [i])[..|pages|] == pages;
  }

  // ---------------------------------------------------------------------
  // The command line

  /**
    The `__main__` block: status 1, with nothing downloaded, unless exactly
    one argument is given, `PIXIV_REFRESH_TOKEN` is set and non-empty and
    authentication succeeds; otherwise the status of fetch_artwork.
  */
  method RunCli(argv: seq<string>, refreshToken: Option<string>, authOk: bool,
                api: string -> Detail, dl: Downloader, writesOk: bool)
    returns (exitCode: int, written: Option<Metadata>)
    modifies dl`log
    ensures exitCode == 0 || exitCode == 1
    ensures |argv| != 2 || !Truthy(refreshToken) || !authOk ==>
      exitCode == 1 && written == None && dl.log == old(dl.log)
    ensures |argv| == 2 && Truthy(refreshToken) && authOk ==>
      (exitCode == 0 <==> api(argv[1]).Found? && writesOk)
    ensures |argv| == 2 && Truthy(refreshToken) && authOk && api(argv[1]).Found? ==>
      dl.log == old(dl.log) + Downloads(argv[1], api(argv[1]).illust)
    ensures |argv| == 2 && Truthy(refreshToken) && authOk && !api(argv[1]).Found? ==>
      exitCode == 1 && written == None && dl.log == old(dl.log)
    ensures exitCode == 0 ==> written == Some(FinalMetadata(argv[1], api(argv[1]).illust, dl.succeeds))
  {
    if |argv| != 2 {
      return 1, None;
    }
    var artworkId := argv[1];
    if !Truthy(refreshToken) {
      return 1, None;
    }
    if !authOk {
      return 1, None;
    }
    var ok;
    ok, written := FetchArtwork(api, artworkId, dl, writesOk);
    exitCode := if ok then 0 else 1;
  }

  // ---------------------------------------------------------------------
  // The recorded image list

  /**
    The recorded pages come in strictly increasing page order, each is a
    page of the list, and page `i` is among them iff it has a URL and its
    content-directory download succeeded: a page without a URL is skipped
    and the numbering of later pages does not shift.
  */
  lemma {:induction false} KeptPagesSpec(id: string, urls: seq<Option<string>>, succeeds: Download -> bool)
    ensures var ks := KeptPages(id, urls, succeeds);
      && |ks| <= |urls|
      && (forall k :: 0 <= k < |ks| ==> ks[k] < |urls|)
      && (forall k, l :: 0 <= k < l < |ks| ==> ks[k] < ks[l])
      && (forall i :: 0 <= i < |urls| ==> (i in ks <==> Kept(id, urls[i], i, succeeds)))
    decreases |urls|
  {
    if urls != [] {
      var init := urls[..|urls| - 1];
      KeptPagesSpec(id, init, succeeds);
      assert forall i :: 0 <= i < |init| ==> init[i] == urls[i];
    }
  }

  /**
    The image list of the written metadata: one distinct path per recorded
    page, named after the page's 1-based number, and never more paths than
    there are pages.
  */
  lemma FinalImages(id: string, a: Illust, succeeds: Download -> bool)
    ensures var images := FinalMetadata(id, a, succeeds).images;
      var ks := KeptPages(id, PageUrls(a), succeeds);
      && |images| == |ks| <= |PageUrls(a)|
      && (forall k :: 0 <= k < |ks| ==> images[k] == RecordedPath(id, ImageFilename(ks[k])))
      && (forall k, l :: 0 <= k < l < |images| ==> images[k] != images[l])
  {
    var ks := KeptPages(id, PageUrls(a), succeeds);
    var images := ImagePaths(id, ks);
    KeptPagesSpec(id, PageUrls(a), succeeds);
    forall k, l | 0 <= k < l < |images|
      ensures images[k] != images[l]
    {
      ImageFilenameInjective(ks[k], ks[l]);
      var p := "/src/content/images/pixiv/" + id + "/";
      assert images[k] == p + ImageFilename(ks[k]) && images[l] == p + ImageFilename(ks[l]);
      assert (p + ImageFilename(ks[k]))[|p|..] == ImageFilename(ks[k]);
      assert (p + ImageFilename(ks[l]))[|p|..] == ImageFilename(ks[l]);
    }
  }

  /** A one-page work records at most one image, `image_1.jpg`. */
  lemma SinglePageImage(id: string, a: Illust, succeeds: Download -> bool)
    requires a.pageCount == 1
    ensures FinalMetadata(id, a, succeeds).images
         == if Kept(id, a.singlePageOriginal, 0, succeeds) then [RecordedPath(id, "image_1.jpg")] else []
  {
    SinglePage(id, a.singlePageOriginal, succeeds);
    assert Decimal.NatToString(1) == [Decimal.DigitChar(1)];
    assert ImageFilename(0) == "image_1.jpg";
  }

  /**
    The avatar points at the local copy when its content-directory download
    succeeded, and keeps the remote medium-size URL otherwise, whatever the
    backup download did.
  */
  lemma AvatarRule(id: string, a: Illust, succeeds: Download -> bool)
    ensures var url := FinalMetadata(id, a, succeeds).author.profileImageUrl;
      && (succeeds(Download(a.user.mediumProfileImage, ContentDir(id), AvatarFilename)) ==>
            url == "/src/content/images/pixiv/" + id + "/author_profile.jpg")
      && (!succeeds(Download(a.user.mediumProfileImage, ContentDir(id), AvatarFilename)) ==>
            url == a.user.mediumProfileImage)
  {
  }
}
