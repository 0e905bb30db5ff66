# Sesese gallery core, modelled in Dafny

Sesese is a static Pixiv artwork gallery site. This project models the parts of it that hold logic:

- **`Gallery.ArtworkManager`**: the page navigator of an artwork's page (prev/next buttons, arrow keys, the counter, and which image source is shown).
- **`Oss`**: the object-store key and URL builders, each with an inverse parser.
- **`Upload`**: the batch upload script, which puts the static assets and then every artwork file into the object store and stops at the first failed put.
- **`PixivApi`**: the Pixiv discovery client. It guards on the cookie, sends one GET, checks the status and maps each work to the site's artwork record.
- **`Fetcher`**: the single-artwork fetcher. It builds the metadata record, downloads the avatar and the pages to two directories each, and exits from its command line with a status code.
- **`Listing`**, **`Rss`** and **`Sitemap`**: the two generated XML pages. Both keep the collection entries that have data and a truthy id, and list them newest first. The feed then builds one item per artwork, and the sitemap two fixed urls plus one url per artwork.
- **`Decimal`**: supports the above by rendering integers and modelling `parseInt`. **`Wrappers`** holds `Option` and `Result`.

Dependencies are passed in, not modelled:

- The network, the object store and the downloader are parameters: objects that record each call, with an oracle that decides its outcome.
  - `Upload.Store` decides by the number of the put attempt.
  - `Fetcher.Downloader` decides by the download call.
  - `PixivApi.Network` gives a fixed reply.
- The fetcher's Pixiv API is a plain function from artwork id to illust detail, and its login a boolean outcome; neither records its calls.
- The filesystem the upload script reads is a value, `Upload.Fs`.
- The DOM the manager reads is a value, `Gallery.Document`. What the manager writes is a `Gallery.View` record.

Where the code does something stateful, the model is stateful too:

- The manager is a class whose handlers update its fields.
- The upload loops are `for` loops over the store object. They are proved against a plan function (`Upload.UploadPlan`) and the ghost predicate `Upload.Executed`.
- The page-download loop is proved against `Fetcher.PageDownloads` and `Fetcher.KeptPages`.
- The push loop of the listing pages is proved against `Listing.KeptRecords`.

The upload script puts every file unconditionally; it does not check what the store already holds.

## Model

| member | source | states |
|---|---|---|
| Oss.OssPathRoundTrip | src/lib/oss.ts:3-5 | the object key is recovered from its public URL by stripping the bucket URL and `/` |
| Oss.OssPathInjective | src/lib/oss.ts:3-5 | distinct keys have distinct public URLs |
| Oss.AssetPathRoundTrip | src/lib/oss.ts:11-13 | an asset key parses back to its file name |
| Oss.ParseAssetKeyExact | src/lib/oss.ts:11-13 | a key parses to file name `f` exactly when it is the asset key of `f` |
| Oss.ArtworkPathRoundTrip | src/lib/oss.ts:7-9 | an artwork key parses back to its id and file name, when the id holds no `/` |
| Oss.ParseArtworkKeyExact | src/lib/oss.ts:7-9 | a key parses to (id, file) exactly when it is the artwork key of that id (without `/`) and file |
| Oss.ArtworkPathInjective | src/lib/oss.ts:7-9 | two artwork keys with slash-free ids are equal only for the same id and file name |
| Oss.ArtworkPathNeverAssetPath | src/lib/oss.ts:7-13 | no artwork key is an asset key: the two namespaces are disjoint |
| Decimal.NatToStringInjective | fetch_pixiv.py:122 | distinct page numbers render as distinct numerals |
| Decimal.ParseIntRoundTrip | src/pages/rss.xml.ts:10 | `parseInt` of a rendered integer gives that integer back |
| Gallery.TotalImages | src/components/ArtworkManager.ts:46 | the total is never 0, so the counter always has a page total; it is a positive count exactly when `page_count` is not negative, and a missing (0) count means one page |
| Gallery.RefreshButtons | src/components/ArtworkManager.ts:76-82 | on a page within the artwork, each button is enabled exactly when its click handler would move in that direction, and the counter reads that page of the total; without all three controls nothing changes; the image is never touched |
| Gallery.ArtworkManager.constructor | src/components/ArtworkManager.ts:32-74 | outside a browser all fields keep their defaults and nothing is bound; in a browser the artwork record, page total and first image come from the document, and the handlers are bound (and the buttons refreshed) exactly when the container and frame exist and, for more than one page, all three controls exist |
| Gallery.ArtworkManager.UpdateImageButtons | src/components/ArtworkManager.ts:76-82 | the view becomes the refreshed view of the current index and total |
| Gallery.ArtworkManager.UpdateImage | src/components/ArtworkManager.ts:84-148 | the image is shown exactly when there is a frame, a non-zero id, the picture elements and two non-empty sources; then the view holds the selected sources, the title (or `图片 n`) as alt text and refreshed buttons; otherwise the view, buttons included, is unchanged |
| Gallery.ArtworkManager.HandleClickPrev | src/components/ArtworkManager.ts:152-158 | steps back one page and redraws when not on the first page, and otherwise changes nothing; the index stays within the pages |
| Gallery.ArtworkManager.HandleClickNext | src/components/ArtworkManager.ts:159-165 | steps forward one page and redraws when not on the last page, and otherwise changes nothing; the index stays within the pages |
| Gallery.ArtworkManager.ClickPrevButton | src/components/ArtworkManager.ts:167 | a click on prev runs handleClickPrev (one page back and a redraw, unless on the first page) exactly when the handler is bound to an existing, enabled button; otherwise neither the page nor the view changes |
| Gallery.ArtworkManager.ClickNextButton | src/components/ArtworkManager.ts:168 | a click on next runs handleClickNext (one page forward and a redraw, unless on the last page) exactly when the handler is bound to an existing, enabled button; otherwise neither the page nor the view changes |
| Gallery.KeyOf | src/components/ArtworkManager.ts:174-180 | `e.key` is read as ArrowLeft or ArrowRight exactly for those two names; every other name is an `OtherKey` carrying it |
| Gallery.ArtworkManager.HandleKeyDown | src/components/ArtworkManager.ts:170-187 | ArrowLeft/ArrowRight press the page button in their direction when a multi-page artwork has a page there, with the effect of that click (none while the button is disabled); otherwise they follow the neighbouring artwork's link if there is one; other keys are ignored; nothing else changes the page or the view |
| Gallery.ArtworkManager.KeyDown | src/components/ArtworkManager.ts:188 | while bound, a key press has exactly the effect and outcome of handleKeyDown; unbound, it is ignored and changes nothing |
| Gallery.ArtworkManager.Destroy | src/components/ArtworkManager.ts:229-258 | afterwards no handler is bound and the container and frame references are dropped |
| Gallery.WebpRewrite | src/components/ArtworkManager.ts:108 | the `.jpg`→`.webp` rewrite changes a string exactly when it ends in `.jpg`, then ends in `.webp`, and is idempotent |
| Gallery.GeneratedFilenameInjective | src/components/ArtworkManager.ts:120 | distinct pages of one artwork get distinct generated file names |
| Gallery.CounterInjective | src/components/ArtworkManager.ts:80 | the counter text determines both the page shown and the total |
| Gallery.GeneratedSourcesCoincide | src/components/ArtworkManager.ts:116-125 | with the two-argument getArtworkPath the generated jpg and webp sources chosen by `SelectSource` are the same URL, the public URL of `<id>_<page>.jpg` |
| Gallery.FirstPageUsesStoredImage | src/components/ArtworkManager.ts:106-109 | in `SelectSource`, page 1 with a stored first image shows that image, whatever is preloaded, with its `.jpg`→`.webp` rewrite as the webp source, a rewrite that is already final |
| Gallery.PreloadedPairUsed | src/components/ArtworkManager.ts:110-116 | in `SelectSource`, any other page that the document preloaded shows the preloaded pair unchanged |
| Upload.Store.Put | scripts/batch-upload-to-oss.js:5-17 | a put is logged; when it succeeds it overwrites its key and touches nothing else |
| Upload.UploadFile | scripts/batch-upload-to-oss.js:14-23 | one put of the file at the key, with its failure passed to the caller |
| Upload.UploadAssets | scripts/batch-upload-to-oss.js:26-46 | the asset puts ran in plan order up to the first failure, and only the successful ones changed the store |
| Upload.UploadPublicFiles | scripts/batch-upload-to-oss.js:37-45 | the asset loop executes the asset plan of the given names, skipping missing files |
| Upload.UploadDirectory | scripts/batch-upload-to-oss.js:63-70 | the inner loop executes one put per listed file of the directory, stopping at the first failure |
| Upload.UploadArtworks | scripts/batch-upload-to-oss.js:49-73 | the artwork puts ran in plan order up to the first failure; a missing source directory succeeds with nothing put |
| Upload.BatchUpload | scripts/batch-upload-to-oss.js:76-92 | the whole plan ran up to the first failure, and the exit status is 0 exactly when every put succeeded, else 1 |
| Upload.AssetPlanContents | scripts/batch-upload-to-oss.js:37-45 | an asset is put, at its asset key, exactly when it is one of bg.jpg, dao.png, se.png and present in `public/`, in that order |
| Upload.ArtworkPlanContents | scripts/batch-upload-to-oss.js:53-72 | a file is put, at its artwork key, exactly when the source directory exists and the file is listed in one of its directory entries |
| Upload.AssetsBeforeArtworks | scripts/batch-upload-to-oss.js:82-86 | every asset put precedes every artwork put |
| Upload.PlanKeysDistinct | scripts/batch-upload-to-oss.js:38-70 | on a filesystem with distinct listings and slash-free entry names, no two planned puts share a key |
| Upload.SuccessfulRunStoresPlan | scripts/batch-upload-to-oss.js:76-88 | after a run that exits with 0, every planned key holds its file, and every other key is as before |
| Upload.InlineKeysAreOssKeys | scripts/batch-upload-to-oss.js:41-68 | the keys the script writes inline under `sesese-se/assets` and `sesese-se/artworks` are exactly the getAssetPath and getArtworkPath keys |
| Upload.FailedRunStopsAtFirstFailure | scripts/batch-upload-to-oss.js:76-92 | after a failed run, the log is a prefix of the plan ending in the one rejected put, all earlier puts succeeded, and exactly those took effect |
| PixivApi.Cookie | src/lib/pixiv.ts:3 | the cookie is the environment value; an unset variable and an empty one both give the empty cookie, which the client refuses |
| PixivApi.Originals | src/lib/pixiv.ts:86 | one original URL per meta page, in page order |
| PixivApi.MapWorks | src/lib/pixiv.ts:67-88 | one mapped record per work, in order |
| PixivApi.MapWorkCopies | src/lib/pixiv.ts:68-84 | the record built by `MapWork` copies the work's fields and takes the author from `user` with the medium profile image |
| PixivApi.ImagesRule | src/lib/pixiv.ts:85-87 | the images are the page originals when there are pages, else the single page's original; never empty |
| PixivApi.Outcome | src/lib/pixiv.ts:53-92 | success exactly for a reachable 2xx reply with a well-formed body, and then the mapped works; every failure names the one check that failed (no reply, a non-2xx status with that status, or a malformed body), and none reports a missing cookie |
| PixivApi.Network.Fetch | src/lib/pixiv.ts:54-59 | the request is recorded and the reply given |
| PixivApi.FetchPixivArtworks | src/lib/pixiv.ts:39-93 | without a cookie it fails before any request; otherwise it sends exactly one request, to the discovery URL with the cookie, and returns the outcome of the reply |
| PixivApi.FetchedArtworks | src/lib/pixiv.ts:67-88 | a successful fetch gives one artwork per work with the same id and at least one image |
| Fetcher.TagNames | fetch_pixiv.py:44 | one tag name per tag, in order |
| Fetcher.CreateMetadataFields | fetch_pixiv.py:37-56 | the fresh record built by `CreateMetadata` has no images, is not muted, holds the tag names, the author with the medium profile image, and the illust's scalar fields |
| Fetcher.RecordedPathIsContentPath | fetch_pixiv.py:94-99 | the path put in the metadata is the content-directory path, made absolute |
| Fetcher.ImageFilenameInjective | fetch_pixiv.py:122 | distinct pages get distinct file names |
| Fetcher.Downloader.DownloadFile | fetch_pixiv.py:15-35 | the call is logged; the joined path is returned exactly when the download succeeds, else None |
| Fetcher.FetchArtwork | fetch_pixiv.py:58-156 | with no `illust` or an API error it returns False and downloads nothing; otherwise it makes the avatar and page downloads in order, and succeeds exactly when the writes do, with the final metadata written |
| Fetcher.DownloadAll | fetch_pixiv.py:86-134 | once the detail is found, the avatar and page downloads are made in order and the record is the final metadata |
| Fetcher.DownloadPage | fetch_pixiv.py:105-116 | a page with a URL is downloaded to the backup and then the content directory, and its recorded path is returned exactly when the content download succeeded; a page without a URL downloads nothing |
| Fetcher.DownloadAvatar | fetch_pixiv.py:88-100 | the avatar is downloaded to the backup and then the content directory, and the record points at the local copy exactly when the content download succeeded |
| Fetcher.DownloadImages | fetch_pixiv.py:102-134 | the single page for a one-page work, else every meta page with a URL, is downloaded twice, and the record gains the recorded paths of the kept pages |
| Fetcher.DownloadPages | fetch_pixiv.py:119-134 | the loop downloads each page with a URL, backup first, and appends the recorded path of each page whose content download succeeded |
| Fetcher.RunCli | fetch_pixiv.py:158-182 | exit 1 with nothing downloaded unless there is exactly one argument, a non-empty refresh token and a successful authentication; then exit 0 exactly when the artwork is found and written |
| Fetcher.KeptPagesSpec | fetch_pixiv.py:119-131 | recorded pages come in increasing page order, and page `i` is recorded exactly when it has a URL and its content download succeeded; skipped pages do not shift the numbering |
| Fetcher.FinalImages | fetch_pixiv.py:113-131 | the written image list has one distinct path per recorded page, named after its 1-based number, and no more paths than pages |
| Fetcher.SinglePageImage | fetch_pixiv.py:103-116 | a one-page work records `image_1.jpg` if its page was kept, and nothing otherwise |
| Fetcher.AvatarRule | fetch_pixiv.py:93-100 | the avatar points at the local copy when the content download succeeded and keeps the remote URL otherwise, whatever the backup download did |
| Listing.CollectArtworks | src/pages/rss.xml.ts:9-18 | the loop pushes the records of the kept entries in collection order |
| Listing.KeptRecordsSpec | src/pages/sitemap.xml.ts:9-18 | one record per entry with data and a truthy id, none for any other entry, each with the parsed entry id |
| Listing.RecordId | src/pages/rss.xml.ts:10-16 | a kept entry named by a numeral gets that number as its id |
| Listing.SortSpec | src/pages/rss.xml.ts:21-23 | the sort returns its input rearranged, newest first |
| Listing.ListArtworks | src/pages/rss.xml.ts:9-23 | the listed artworks are newest first and are exactly the kept records |
| Listing.ListedSpec | src/pages/sitemap.xml.ts:9-23 | the listing is newest first, a permutation of the kept records, one per kept entry |
| Listing.ArtworkPageUrlSpec | src/pages/rss.xml.ts:38 | the page of position `i` is the site root followed by the numeral `i+1`, and distinct positions give distinct pages |
| Rss.GetResponds | src/pages/rss.xml.ts:47-52 | the feed is served with status 200 and Content-Type `application/xml` |
| Rss.FeedItems | src/pages/rss.xml.ts:35-43 | the feed's `Items` hold one item per kept entry; item `i` links to page `i+1`, with equal link and guid, the title of the `i`-th listed artwork, and as both description and encoded content that artwork's image tag; dates never increase |
| Rss.ImageTagParts | src/pages/rss.xml.ts:41-42 | an item's image tag carries the artwork's image url as `src` and its title, unescaped, as `alt`, each at a fixed position |
| Rss.LinksDistinct | src/pages/rss.xml.ts:38-39 | no two items share a link or a guid |
| Rss.ImageUrlInjective | src/pages/rss.xml.ts:41-42 | an item's image is `…/pixiv/{id}_1.jpg`, and distinct ids give distinct images |
| Sitemap.GetResponds | src/pages/sitemap.xml.ts:47-52 | the sitemap is served with status 200 and Content-Type `application/xml`; this holds for the integer dates of the model, whereas in the source an unparseable date makes `toISOString` throw and the route fail |
| Sitemap.UrlSetShape | src/pages/sitemap.xml.ts:26-44 | the home page (daily, 1.0) and the about page (monthly, 0.8) come first, then `ArtworkUrls`, one url per kept entry at page `i+1` (monthly, 0.9, dated by creation); every priority is at most 1.0 |
| Sitemap.UrlSetNewestFirst | src/pages/sitemap.xml.ts:21-23 | after the fixed urls, last-modified dates never increase |
| Sitemap.UrlSetLocationsDistinct | src/pages/sitemap.xml.ts:26-44 | no two urls of the set share a location |

## Left out

- DOM plumbing is abstracted: element lookup, `dataset` JSON parsing, attribute writes, `console` output, and the navigation itself when the neighbouring artwork's link is followed with `click()`, which `OpenPrevArtwork`/`OpenNextArtwork` stand for. The DOM is a `Document` value and a `View` record.
- `setupEdgeDetection` and `setupMouseTracking` (src/components/ArtworkManager.ts:191-226) are not modelled. They are mouse-position styling with no effect on the navigation state.
- Numbers are JavaScript doubles in the source and unbounded integers here; ids, page counts and indices are taken to be safe integers. Not modelled: `String(n)` switching to exponent form from 1e21, `parseInt` rounding beyond 2^53, and a fractional `page_count`, with which the next button is never disabled.
- Logging is not modelled: the upload script's `console` messages, `console.error` in the Pixiv client and the fetcher's `print` calls.
- The asynchronous scheduling of `updateImage` is not modelled; each call runs to completion.
- Dates are kept as integer timestamps. Left out: `new Date(...)` parsing, NaN in the sort comparator, `toUTCString` and `toISOString` rendering, and the feed's `lastBuildDate`, which reads the clock.
- Listing.SortSpec: the library sort is modelled as an insertion sort on values, which keeps artworks with equal dates in their input order, as `Array.prototype.sort` has been required to since ES2019. That stability is not stated in the contract, and the sort is not in place.
- Decimal.ParseIntRoundTrip: `parseInt` is modelled as an optional sign followed by leading digits. Leading whitespace, hexadecimal prefixes and `-0` are not modelled.
- The XML text, its escaping and the CDATA wrapping are not modelled. The feed and the sitemap are given as their channel fields and item or url records.
- JSON decoding and encoding are not modelled. The Pixiv reply carries already-decoded works or "malformed"; the written JSON files are represented by the metadata record.
- The HTTP headers other than `Cookie` are not modelled: user agent, accept, referer, origin, credentials and mode.
- The random sleep between page downloads and the directory creation calls are not modelled.
- Fetcher.RunCli: the calls to the Pixiv API are not recorded. The model does not state that `auth` is called with the refresh token, or that `illust_detail` is called once with the artwork id; the login's result is the boolean `authOk` and the detail is `api(id)`.
- Fetcher.FetchArtwork: an exception while writing the three files is one boolean `writesOk`. Partially written files on failure are not modelled.
- Upload.UploadArtworks: an exception from `statSync` or `readdirSync` is not modelled; listings are taken as given.
- Upload.UploadAssets: creating the `public/assets` directory is not modelled. Nothing is read from or put from it.
- Upload.Store.Put: the store keeps which local file was put under a key, not its bytes.
- src/fetch_pixiv.py, src/pages/api/proxy-image.ts, src/content/config.ts and src/types/pixiv.ts are not part of this model.
