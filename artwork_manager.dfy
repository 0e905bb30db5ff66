/**
  The gallery page navigator (src/components/ArtworkManager.ts): the index of
  the page shown, the number of pages, the prev/next and keyboard handlers,
  the refresh of the buttons and the counter, and the choice of the image
  source for a page. The DOM is abstracted to a `Document` value (which
  elements exist, what they hold when the manager starts) and a `View`
  record (what the manager writes into them).
*/
module Gallery {
  import opened Wrappers
  import Decimal
  import Oss

  datatype Format = Jpg | Webp

  /**
    The record parsed from the container's `data-artwork` attribute. A
    missing `id` reads as 0 and a missing `page_count` as 0, since the code
    only tests them for truthiness; an empty `title` stands for a missing one.
  */
  datatype ArtworkData = ArtworkData(id: int, title: string, pageCount: int)

  /** An `<img>` source and the matching `<source type="image/webp">` srcset. */
  datatype SourcePair = SourcePair(src: string, webpSrcset: string)

  /** The abstract state of the elements the manager writes. */
  datatype View = View(
    prevDisabled: bool,
    nextDisabled: bool,
    counter: string,
    imgSrc: string,
    imgAlt: string,
    imgIndex: string,
    webpSrcset: string)

  /**
    What the page offers: whether the code runs in a browser, which of the
    looked-up elements exist, the artwork record, the first image's `src`,
    the preloaded pictures (page number to sources, listed only where both
    the `<img>` and the webp `<source>` exist), the neighbouring-artwork
    links, and the state of the written elements at start.
  */
  datatype Document = Document(
    inBrowser: bool,
    hasContainer: bool,
    data: ArtworkData,
    hasFrame: bool,
    hasPrevButton: bool,
    hasNextButton: bool,
    hasCounter: bool,
    firstImageSrc: Option<string>,
    hasPicture: bool,
    preloaded: map<int, SourcePair>,
    hasPrevLink: bool,
    hasNextLink: bool,
    initialView: View)

  /** A pressed key; `OtherKey` stands for every `e.key` other than the two arrows. */
  datatype Key = ArrowLeft | ArrowRight | OtherKey(name: string)

  /** The key an `e.key` string denotes: the arrows by their names, anything else as itself. */
  function KeyOf(eKey: string): (k: Key)
    ensures k == ArrowLeft <==> eKey == "ArrowLeft"
    ensures k == ArrowRight <==> eKey == "ArrowRight"
    ensures k.OtherKey? ==> k.name == eKey && eKey != "ArrowLeft" && eKey != "ArrowRight"
  {
    if eKey == "ArrowLeft" then ArrowLeft
    else if eKey == "ArrowRight" then ArrowRight
    else OtherKey(eKey)
  }

  /** What a key press did: a `click()` on a page button, a link followed, or nothing. */
  datatype KeyAction = PressPrevButton | PressNextButton | OpenPrevArtwork | OpenNextArtwork | Ignored

  /**
    `page_count || 1`: a missing page count means one page. The total is never
    zero, and it is a real page count exactly when page_count is not negative.
  */
  function TotalImages(pageCount: int): (total: int)
    ensures total != 0
    ensures total >= 1 <==> pageCount >= 0
    ensures pageCount != 0 ==> total == pageCount
    ensures pageCount == 0 ==> total == 1
  {
    if pageCount != 0 then pageCount else 1
  }

  predicate EndsWith(s: string, suffix: string) {
    |suffix| <= |s| && s[|s| - |suffix|..] == suffix
  }

  /** `s.replace(/\.jpg$/, '.webp')`. */
  function ReplaceJpgSuffix(s: string): string {
    if EndsWith(s, ".jpg") then s[..|s| - 4] + ".webp" else s
  }

  /** The counter text `${index + 1} / ${total}`. */
  function Counter(index: int, total: int): string {
    Decimal.IntToString(index + 1) + " / " + Decimal.IntToString(total)
  }

  /** The name of page `page` of artwork `id` in the object store. */
  function GeneratedFilename(id: int, page: int): string {
    Decimal.IntToString(id) + "_" + Decimal.IntToString(page) + ".jpg"
  }

  /**
    The sources for page `page` (1-based): the stored first image for page 1,
    else the preloaded pair, else keys built from the generated filename.
  */
  function SelectSource(
    page: int, initialFirstImage: string, preloaded: map<int, SourcePair>, id: int,
    ossPath: string -> string, artworkPath: (string, string, Format) -> string): SourcePair
  {
    if page == 1 && initialFirstImage != "" then
      SourcePair(initialFirstImage, ReplaceJpgSuffix(initialFirstImage))
    else if page in preloaded then
      preloaded[page]
    else
      var filename := GeneratedFilename(id, page);
      SourcePair(ossPath(artworkPath(Decimal.IntToString(id), filename, Jpg)),
                 ossPath(artworkPath(Decimal.IntToString(id), filename, Webp)))
  }

  /** The view after updateImageButtons; unchanged when a control is missing. */
  function RefreshButtons(v: View, controls: bool, index: int, total: int): (r: View)
    ensures !controls ==> r == v
    ensures controls ==> r.prevDisabled == (index == 0) && r.nextDisabled == (index == total - 1)
    ensures controls ==> r.counter == Counter(index, total)
    // on a valid page, a button is enabled exactly when its click handler would step
    ensures controls && 0 <= index < total ==>
      (!r.prevDisabled <==> index > 0) && (!r.nextDisabled <==> index < total - 1)
    ensures r.imgSrc == v.imgSrc && r.imgAlt == v.imgAlt && r.imgIndex == v.imgIndex
    ensures r.webpSrcset == v.webpSrcset
  {
    if controls then v.(prevDisabled := index == 0, nextDisabled := index == total - 1,
                        counter := Counter(index, total))
    else v
  }

  /** The view after a successful updateImage that showed `source` for `page`. */
  function ShowImage(v: View, source: SourcePair, title: string, page: int): View {
    v.(imgSrc := source.src,
       imgAlt := if title != "" then title else "图片 " + Decimal.IntToString(page),
       imgIndex := Decimal.IntToString(page),
       webpSrcset := source.webpSrcset)
  }

  /** getArtworkPath from src/lib/oss.ts as the manager's three-argument builder. */
  function OssArtworkPath(id: string, filename: string, format: Format): string {
    Oss.ArtworkPath(id, filename)
  }

  class ArtworkManager {
    var currentImageIndex: int
    var totalImages: int
    var artworkData: ArtworkData
    /** The stored `src` of the first image; "" stands for none. */
    var initialFirstImage: string
    const ossPath: string -> string
    const artworkPath: (string, string, Format) -> string
    const doc: Document
    // which element references the manager holds
    var hasContainer: bool
    var hasFrame: bool
    var hasPrevButton: bool
    var hasNextButton: bool
    var hasCounter: bool
    /** The click and keydown handlers are bound (their fields are non-null). */
    var listening: bool
    var view: View

    ghost predicate Valid()
      reads this
    {
      && 0 <= currentImageIndex
      && (totalImages >= 1 ==> currentImageIndex <= totalImages - 1)
      && (listening && totalImages > 1 ==> hasPrevButton && hasNextButton && hasCounter)
    }

    predicate Controls()
      reads this
    {
      hasPrevButton && hasNextButton && hasCounter
    }

    /** The constructor: outside a browser everything keeps its default. */
    constructor (d: Document, getOSSPath: string -> string,
                 getArtworkPath: (string, string, Format) -> string)
      ensures Valid()
      ensures doc == d && currentImageIndex == 0
      ensures !d.inBrowser ==> totalImages == 1 && artworkData == ArtworkData(0, "", 1)
      ensures !d.inBrowser ==> !listening && !hasContainer && !hasFrame && !Controls()
      ensures !d.inBrowser ==> initialFirstImage == "" && view == d.initialView
      ensures d.inBrowser ==> ossPath == getOSSPath && artworkPath == getArtworkPath
      ensures d.inBrowser ==> artworkData == (if d.hasContainer then d.data else ArtworkData(0, "", 1))
      ensures d.inBrowser ==> totalImages == TotalImages(artworkData.pageCount)
      ensures d.inBrowser ==> initialFirstImage == d.firstImageSrc.GetOr("")
      ensures d.inBrowser ==> hasContainer == d.hasContainer && hasFrame == d.hasFrame
      ensures d.inBrowser ==> hasPrevButton == d.hasPrevButton && hasNextButton == d.hasNextButton
      ensures d.inBrowser ==> hasCounter == d.hasCounter
      ensures listening <==> d.inBrowser && (totalImages > 1 ==> Controls()) && hasContainer && hasFrame
      ensures view == RefreshButtons(d.initialView, listening && Controls(), 0, totalImages)
    {
      doc := d;
      currentImageIndex := 0;
      view := d.initialView;
      listening := false;
      if !d.inBrowser {
        ossPath := _ => "";
        artworkPath := (_, _, _) => "";
        artworkData := ArtworkData(0, "", 1);
        totalImages := 1;
        initialFirstImage := "";
        hasContainer, hasFrame := false, false;
        hasPrevButton, hasNextButton, hasCounter := false, false, false;
      } else {
        ossPath := getOSSPath;
        artworkPath := getArtworkPath;
        hasContainer, hasFrame := d.hasContainer, d.hasFrame;
        hasPrevButton, hasNextButton, hasCounter := d.hasPrevButton, d.hasNextButton, d.hasCounter;
        var data := if d.hasContainer then d.data else ArtworkData(0, "", 1);
        artworkData := data;
        totalImages := TotalImages(data.pageCount);
        initialFirstImage := if d.firstImageSrc.Some? then d.firstImageSrc.value else "";
      }
      new;
      if d.inBrowser && (totalImages > 1 ==> Controls()) && d.hasContainer && d.hasFrame {
        // init(): bindEvents, then updateImageButtons
        listening := true;
        UpdateImageButtons();
      }
    }

    /** updateImageButtons. */
    method UpdateImageButtons()
      modifies this`view
      ensures view == RefreshButtons(old(view), Controls(), currentImageIndex, totalImages)
    {
      if hasPrevButton && hasNextButton && hasCounter {
        view := view.(prevDisabled := currentImageIndex == 0,
                      nextDisabled := currentImageIndex == totalImages - 1,
                      counter := Counter(currentImageIndex, totalImages));
      }
    }

    /** The sources updateImage would show for the current page. */
    function CurrentSource(): SourcePair
      reads this
    {
      SelectSource(currentImageIndex + 1, initialFirstImage, doc.preloaded, artworkData.id,
                   ossPath, artworkPath)
    }

    /**
      Whether updateImage gets as far as writing the image: a frame, a
      non-zero id, the picture elements, and two non-empty sources.
    */
    predicate CanShow()
      reads this
    {
      && hasFrame && artworkData.id != 0 && doc.hasPicture
      && CurrentSource().src != "" && CurrentSource().webpSrcset != ""
    }

    /** The view after updateImage ran on `v` for the current page. */
    function Redrawn(v: View): View
      reads this
    {
      if CanShow() then
        RefreshButtons(ShowImage(v, CurrentSource(), artworkData.title, currentImageIndex + 1),
                       Controls(), currentImageIndex, totalImages)
      else v
    }

    /** updateImage: writes the image and refreshes the buttons, or changes nothing. */
    method UpdateImage() returns (shown: bool)
      modifies this`view
      ensures shown == CanShow()
      ensures view == Redrawn(old(view))
      ensures !shown ==> view == old(view)
    {
      shown := false;
      if hasFrame && artworkData.id != 0 {
        var page := currentImageIndex + 1;
        if !doc.hasPicture {
          return;
        }
        var target := SelectSource(page, initialFirstImage, doc.preloaded, artworkData.id,
                                   ossPath, artworkPath);
        if target.src == "" || target.webpSrcset == "" {
          // the thrown error is caught and logged
          return;
        }
        view := ShowImage(view, target, artworkData.title, page);
        UpdateImageButtons();
        shown := true;
      }
    }

    /** Neither the page index nor the view changed. */
    twostate predicate Unmoved()
      reads this
    {
      currentImageIndex == old(currentImageIndex) && view == old(view)
    }

    /** The effect of handleClickPrev: one page back and a redraw, unless on the first page. */
    twostate predicate SteppedBack()
      reads this
    {
      if old(currentImageIndex) > 0 then
        currentImageIndex == old(currentImageIndex) - 1 && view == Redrawn(old(view))
      else Unmoved()
    }

    /** The effect of handleClickNext: one page forward and a redraw, unless on the last page. */
    twostate predicate SteppedForward()
      reads this
    {
      if old(currentImageIndex) < old(totalImages) - 1 then
        currentImageIndex == old(currentImageIndex) + 1 && view == Redrawn(old(view))
      else Unmoved()
    }

    /** handleClickPrev. */
    method HandleClickPrev()
      requires Valid()
      modifies this`currentImageIndex, this`view
      ensures Valid()
      ensures SteppedBack()
    {
      if currentImageIndex > 0 {
        currentImageIndex := currentImageIndex - 1;
        var _ := UpdateImage();
      }
    }

    /** handleClickNext. */
    method HandleClickNext()
      requires Valid()
      modifies this`currentImageIndex, this`view
      ensures Valid()
      ensures SteppedForward()
    {
      if currentImageIndex < totalImages - 1 {
        currentImageIndex := currentImageIndex + 1;
        var _ := UpdateImage();
      }
    }

    /**
      A click on prev, by the user or by `click()`, reaches handleClickPrev
      only when the handler is bound to an existing button that is not
      disabled.
    */
    predicate PrevClickFires()
      reads this
    {
      listening && hasPrevButton && !view.prevDisabled
    }

    predicate NextClickFires()
      reads this
    {
      listening && hasNextButton && !view.nextDisabled
    }

    /** A click on the prev button. */
    method ClickPrevButton()
      requires Valid()
      modifies this`currentImageIndex, this`view
      ensures Valid()
      ensures old(PrevClickFires()) ==> SteppedBack()
      ensures !old(PrevClickFires()) ==> Unmoved()
    {
      if listening && hasPrevButton && !view.prevDisabled {
        HandleClickPrev();
      }
    }

    /** A click on the next button. */
    method ClickNextButton()
      requires Valid()
      modifies this`currentImageIndex, this`view
      ensures Valid()
      ensures old(NextClickFires()) ==> SteppedForward()
      ensures !old(NextClickFires()) ==> Unmoved()
    {
      if listening && hasNextButton && !view.nextDisabled {
        HandleClickNext();
      }
    }

    /**
      What handleKeyDown does for `key`: ArrowLeft and ArrowRight press the
      page button in their direction when a page lies there, and otherwise
      follow the neighbouring artwork's link, if the page has one; any other
      key is ignored. Only a button press that fires changes the state.
    */
    twostate predicate KeyHandled(key: Key, action: KeyAction)
      reads this
    {
      match key
      case ArrowLeft =>
        if old(totalImages > 1 && currentImageIndex > 0) then
          action == PressPrevButton && (if old(PrevClickFires()) then SteppedBack() else Unmoved())
        else
          action == (if doc.hasPrevLink then OpenPrevArtwork else Ignored) && Unmoved()
      case ArrowRight =>
        if old(totalImages > 1 && currentImageIndex < totalImages - 1) then
          action == PressNextButton && (if old(NextClickFires()) then SteppedForward() else Unmoved())
        else
          action == (if doc.hasNextLink then OpenNextArtwork else Ignored) && Unmoved()
      case OtherKey(_) =>
        action == Ignored && Unmoved()
    }

    /** handleKeyDown. */
    method HandleKeyDown(key: Key) returns (action: KeyAction)
      requires Valid()
      modifies this`currentImageIndex, this`view
      ensures Valid()
      ensures KeyHandled(key, action)
    {
      action := Ignored;
      if key == ArrowLeft {
        if totalImages > 1 && currentImageIndex > 0 {
          ClickPrevButton();
          action := PressPrevButton;
        } else if doc.hasPrevLink {
          action := OpenPrevArtwork;
        }
      } else if key == ArrowRight {
        if totalImages > 1 && currentImageIndex < totalImages - 1 {
          ClickNextButton();
          action := PressNextButton;
        } else if doc.hasNextLink {
          action := OpenNextArtwork;
        }
      }
    }

    /** A key press reaches handleKeyDown only while it is bound. */
    method KeyDown(key: Key) returns (action: KeyAction)
      requires Valid()
      modifies this`currentImageIndex, this`view
      ensures Valid()
      ensures old(listening) ==> KeyHandled(key, action)
      ensures !old(listening) ==> action == Ignored && Unmoved()
    {
      action := Ignored;
      if listening {
        action := HandleKeyDown(key);
      }
    }

    /** destroy: unbinds the handlers and drops the container and frame references. */
    method Destroy()
      requires Valid()
      modifies this`listening, this`hasContainer, this`hasFrame
      ensures Valid()
      ensures !listening && !hasContainer && !hasFrame
    {
      listening := false;
      hasContainer := false;
      hasFrame := false;
    }
  }

  /** The rewrite leaves no trailing `.jpg`, so applying it again changes nothing. */
  lemma WebpRewrite(s: string)
    ensures !EndsWith(ReplaceJpgSuffix(s), ".jpg")
    ensures ReplaceJpgSuffix(ReplaceJpgSuffix(s)) == ReplaceJpgSuffix(s)
    ensures ReplaceJpgSuffix(s) != s <==> EndsWith(s, ".jpg")
    ensures EndsWith(s, ".jpg") ==> EndsWith(ReplaceJpgSuffix(s), ".webp")
  {
    var r := ReplaceJpgSuffix(s);
    if EndsWith(s, ".jpg") {
      assert r[|r| - 5..] == ".webp";
      assert r[|r| - 4] == 'w';
      assert |r| == |s| + 1;
    }
  }

  /** Distinct pages of one artwork get distinct generated filenames. */
  lemma GeneratedFilenameInjective(id: int, p: int, q: int)
    ensures GeneratedFilename(id, p) == GeneratedFilename(id, q) ==> p == q
  {
    var a, b := Decimal.IntToString(p), Decimal.IntToString(q);
    var prefix := Decimal.IntToString(id) + "_";
    if GeneratedFilename(id, p) == GeneratedFilename(id, q) {
      assert GeneratedFilename(id, p) == prefix + (a + ".jpg");
      assert GeneratedFilename(id, q) == prefix + (b + ".jpg");
      assert (prefix + (a + ".jpg"))[|prefix|..] == a + ".jpg";
      assert (prefix + (b + ".jpg"))[|prefix|..] == b + ".jpg";
      assert a == (a + ".jpg")[..|a|];
      assert b == (b + ".jpg")[..|b|];
      Decimal.IntToStringInjective(p, q);
    }
  }

  /** No space occurs in a rendered integer. */
  lemma NoSpaceInNumber(n: int)
    ensures ' ' !in Decimal.IntToString(n)
  {
    var s := Decimal.IntToString(n);
    forall i | 0 <= i < |s|
      ensures s[i] != ' '
    {
      assert s[i] == '-' || Decimal.IsDigit(s[i]);
    }
  }

  /** The counter text determines both the page number and the total. */
  lemma CounterInjective(i: int, t: int, i': int, t': int)
    ensures Counter(i, t) == Counter(i', t') ==> i == i' && t == t'
  {
    var a, b := Decimal.IntToString(i + 1), Decimal.IntToString(t);
    var a', b' := Decimal.IntToString(i' + 1), Decimal.IntToString(t');
    if Counter(i, t) == Counter(i', t') {
      NoSpaceInNumber(i + 1);
      NoSpaceInNumber(i' + 1);
      var s := Counter(i, t);
      assert s == a + " / " + b && s[|a|] == ' ' && s[..|a|] == a;
      assert s == a' + " / " + b' && s[|a'|] == ' ' && s[..|a'|] == a';
      assert Oss.IndexOf(s, ' ') == Some(|a|);
      assert Oss.IndexOf(s, ' ') == Some(|a'|);
      assert b == s[|a| + 3..] && b' == s[|a'| + 3..];
      Decimal.IntToStringInjective(i + 1, i' + 1);
      Decimal.IntToStringInjective(t, t');
    }
  }

  /**
    With the format-blind getArtworkPath of src/lib/oss.ts, the generated jpg
    and webp sources of a page coincide.
  */
  lemma GeneratedSourcesCoincide(page: int, first: string, preloaded: map<int, SourcePair>,
                                 id: int, ossPath: string -> string)
    requires page != 1 || first == ""
    requires page !in preloaded
    ensures SelectSource(page, first, preloaded, id, ossPath, OssArtworkPath).src
         == SelectSource(page, first, preloaded, id, ossPath, OssArtworkPath).webpSrcset
    ensures SelectSource(page, first, preloaded, id, Oss.OssPath, OssArtworkPath).src
         == Oss.OssPath(Oss.ArtworkPath(Decimal.IntToString(id), GeneratedFilename(id, page)))
  {
  }

  /**
    Page 1 with a stored first image shows it, whatever is preloaded, with the
    webp rewrite of the same string as the webp source; rewriting that again
    changes nothing.
  */
  lemma FirstPageUsesStoredImage(first: string, preloaded: map<int, SourcePair>, id: int,
                                 ossPath: string -> string, artworkPath: (string, string, Format) -> string)
    requires first != ""
    ensures SelectSource(1, first, preloaded, id, ossPath, artworkPath).src == first
    ensures SelectSource(1, first, preloaded, id, ossPath, artworkPath).webpSrcset
         == ReplaceJpgSuffix(first)
    ensures ReplaceJpgSuffix(SelectSource(1, first, preloaded, id, ossPath, artworkPath).webpSrcset)
         == SelectSource(1, first, preloaded, id, ossPath, artworkPath).webpSrcset
  {
    WebpRewrite(first);
  }

  /**
    Any other page the document preloaded shows the preloaded pair as it is,
    without building a key.
  */
  lemma PreloadedPairUsed(page: int, first: string, preloaded: map<int, SourcePair>, id: int,
                          ossPath: string -> string, artworkPath: (string, string, Format) -> string)
    requires !(page == 1 && first != "")
    requires page in preloaded
    ensures SelectSource(page, first, preloaded, id, ossPath, artworkPath) == preloaded[page]
  {
  }
}
