/**
  The Pixiv discovery client (src/lib/pixiv.ts): the cookie guard, the one
  GET of the discovery endpoint, the status check, and the mapping of every
  returned work to the site's artwork record. The network is an object that
  records each request it is given and answers with a fixed reply; the
  decoded JSON body is part of that reply.
*/
module PixivApi {
  import opened Wrappers

  datatype User = User(id: int, name: string, account: string, mediumProfileImage: string)

  /** One entry of `meta_pages`, reduced to its `image_urls.original`. */
  datatype MetaPage = MetaPage(original: string)

  /** One element of `body.works` in the discovery response. */
  datatype Work = Work(
    id: int,
    title: string,
    caption: string,
    tags: seq<string>,
    createDate: string,
    width: int,
    height: int,
    pageCount: int,
    totalView: int,
    totalBookmarks: int,
    isBookmarked: bool,
    user: User,
    singlePageOriginal: string,
    metaPages: seq<MetaPage>)

  datatype Author = Author(id: int, name: string, account: string, profileImageUrl: string)

  /** The record the mapping builds: exactly the properties its object literal sets. */
  datatype PixivArtwork = PixivArtwork(
    id: int,
    title: string,
    caption: string,
    tags: seq<string>,
    createDate: string,
    width: int,
    height: int,
    pageCount: int,
    totalView: int,
    totalBookmarks: int,
    isBookmarked: bool,
    author: Author,
    images: seq<string>)

  const DiscoveryUrl: string := "https://www.pixiv.net/ajax/illust/discovery?mode=all&limit=100"

  /** A GET request: its URL and the value of its `Cookie` header. */
  datatype Request = Request(url: string, cookie: string)

  /**
    What `fetch` followed by `response.json()` yields: no response at all, or
    a status code with the decoded works (None when the body is not JSON of
    the expected shape).
  */
  datatype Reply = Unreachable | Reply(status: int, works: Option<seq<Work>>)

  datatype FetchError = CookieNotSet | HttpError(status: int) | NetworkError | MalformedBody

  /** `process.env.PIXIV_COOKIE || ''`. */
  function Cookie(env: Option<string>): (c: string)
    ensures env.Some? ==> c == env.value
    ensures env.None? ==> c == ""
    // an unset variable and an empty one are both "no cookie"
    ensures c == "" <==> env.None? || env.value == ""
  {
    env.GetOr("")
  }

  /** `response.ok`. */
  predicate StatusOk(status: int) {
    200 <= status <= 299
  }

  /** `meta_pages.map(page => page.image_urls.original)`. */
  function Originals(pages: seq<MetaPage>): (r: seq<string>)
    ensures |r| == |pages|
    ensures forall i :: 0 <= i < |pages| ==> r[i] == pages[i].original
  {
    if pages == [] then [] else [pages[0].original] + Originals(pages[1..])
  }

  /** The `images` of a work: its page originals, or the single page's original when it has no pages. */
  function Images(w: Work): seq<string> {
    if |w.metaPages| > 0 then Originals(w.metaPages) else [w.singlePageOriginal]
  }

  function MapWork(w: Work): PixivArtwork {
    PixivArtwork(
      w.id, w.title, w.caption, w.tags, w.createDate, w.width, w.height, w.pageCount,
      w.totalView, w.totalBookmarks, w.isBookmarked,
      Author(w.user.id, w.user.name, w.user.account, w.user.mediumProfileImage),
      Images(w))
  }

  /** `works.map(...)`: one record per work, in order. */
  function MapWorks(works: seq<Work>): (r: seq<PixivArtwork>)
    ensures |r| == |works|
    ensures forall i :: 0 <= i < |works| ==> r[i] == MapWork(works[i])
  {
    if works == [] then [] else [MapWork(works[0])] + MapWorks(works[1..])
  }

  /** What a call with a non-empty cookie returns for the reply it gets; every error reaches the caller. */
  function Outcome(reply: Reply): (r: Result<seq<PixivArtwork>, FetchError>)
    ensures r.Success? <==> reply.Reply? && StatusOk(reply.status) && reply.works.Some?
    ensures r.Success? ==> r.value == MapWorks(reply.works.value)
    ensures reply.Reply? && !StatusOk(reply.status) ==> r == Failure(HttpError(reply.status))
    ensures reply.Unreachable? ==> r == Failure(NetworkError)
    // each error names the one check that failed; a missing cookie is never reported here
    ensures r == Failure(NetworkError) <==> reply.Unreachable?
    ensures r == Failure(MalformedBody) <==> reply.Reply? && StatusOk(reply.status) && reply.works.None?
    ensures r.Failure? && r.error.HttpError? <==> reply.Reply? && !StatusOk(reply.status)
    ensures r.Failure? ==> r.error != CookieNotSet
  {
    match reply
    case Unreachable => Failure(NetworkError)
    case Reply(status, works) =>
      if !StatusOk(status) then Failure(HttpError(status))
      else if works.None? then Failure(MalformedBody)
      else Success(MapWorks(works.value))
  }

  /** The HTTP client: the requests it was given, and the reply it gives. */
  class Network {
    var sent: seq<Request>
    const reply: Reply

    constructor (answer: Reply)
      ensures sent == [] && reply == answer
    {
      sent := [];
      reply := answer;
    }

    method Fetch(req: Request) returns (r: Reply)
      modifies this`sent
      ensures sent == old(sent) + [req]
      ensures r == reply
    {
      sent := sent + [req];
      r := reply;
    }
  }

  /**
    fetchPixivArtworks: without a cookie it fails before any request;
    otherwise it sends exactly one request to the discovery endpoint and
    returns the outcome of the reply.
  */
  method FetchPixivArtworks(env: Option<string>, net: Network) returns (r: Result<seq<PixivArtwork>, FetchError>)
    modifies net`sent
    ensures Cookie(env) == "" ==> r == Failure(CookieNotSet) && net.sent == old(net.sent)
    ensures Cookie(env) != "" ==> net.sent == old(net.sent) + [Request(DiscoveryUrl, Cookie(env))]
    ensures Cookie(env) != "" ==> r == Outcome(net.reply)
  {
    var cookie := Cookie(env);
    if cookie == "" {
      return Failure(CookieNotSet);
    }
    var reply := net.Fetch(Request(DiscoveryUrl, cookie));
    if reply.Unreachable? {
      return Failure(NetworkError);
    }
    if !StatusOk(reply.status) {
      return Failure(HttpError(reply.status));
    }
    if reply.works.None? {
      return Failure(MalformedBody);
    }
    r := Success(MapWorks(reply.works.value));
  }

  // ---------------------------------------------------------------------
  // Properties of the mapping

  /**
    A work's images are its page originals in page order when it has pages,
    and otherwise the single page's original; either way there is at least one.
  */
  lemma ImagesRule(w: Work)
    ensures |Images(w)| >= 1
    ensures |w.metaPages| > 0 ==> |Images(w)| == |w.metaPages|
    ensures forall i :: 0 <= i < |w.metaPages| ==> Images(w)[i] == w.metaPages[i].original
    ensures |w.metaPages| == 0 ==> Images(w) == [w.singlePageOriginal]
  {
  }

  /**
    The mapped record copies the work's own fields unchanged, takes the
    author from `user` with `profile_image_urls.medium` as its picture, and
    carries the images chosen by the rule above.
  */
  lemma MapWorkCopies(w: Work)
    ensures var a := MapWork(w);
      && a.id == w.id && a.title == w.title && a.caption == w.caption && a.tags == w.tags
      && a.createDate == w.createDate && a.width == w.width && a.height == w.height
      && a.pageCount == w.pageCount && a.totalView == w.totalView
      && a.totalBookmarks == w.totalBookmarks && a.isBookmarked == w.isBookmarked
      && a.author.id == w.user.id && a.author.name == w.user.name && a.author.account == w.user.account
      && a.author.profileImageUrl == w.user.mediumProfileImage
      && a.images == Images(w)
  {
  }

  /** A successful fetch lists one artwork per returned work, in order, and none of them without an image. */
  lemma FetchedArtworks(reply: Reply)
    requires Outcome(reply).Success?
    ensures |Outcome(reply).value| == |reply.works.value|
    ensures forall i :: 0 <= i < |reply.works.value| ==>
      Outcome(reply).value[i].id == reply.works.value[i].id
      && Outcome(reply).value[i].images == Images(reply.works.value[i])
      && |Outcome(reply).value[i].images| >= 1
  {
    forall i | 0 <= i < |reply.works.value|
      ensures |Outcome(reply).value[i].images| >= 1
    {
      ImagesRule(reply.works.value[i]);
    }
  }
}
