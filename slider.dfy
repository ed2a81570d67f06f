/**
 * One slider instance: the gallery and thumbnail widgets' slide lists, the
 * page's error messages and the fullscreen button's icon classes, with the
 * operations that change them, and the initialisation that creates it.
 */
module Slider {
  import opened Wrappers
  import opened JsValues
  import opened SliderConfig
  import opened SliderOptions
  import opened RegionStyle
  import opened PageItems

  const IconFullscreenOn: string := "fa-compress"
  const IconFullscreenOff: string := "fa-expand"
  const FullscreenEnterEvent: string := "fos-imageslider-fullscreen-enter"
  const FullscreenExitEvent: string := "fos-imageslider-fullscreen-exit"

  /** The discriminator sent with every refresh request. */
  const BlobUrls: string := "BLOB_URLS"

  /** A gallery slide: its image URL and the background size set on its element, if any. */
  datatype GallerySlide = GallerySlide(url: string, backgroundSize: Option<JsValue>)

  /** What the server answered a refresh request with. */
  datatype Response = Success(result: seq<string>) | Error(responseText: string)

  /** The plugin request a refresh issues: the endpoint, the discriminator and the page items. */
  datatype Request = Request(pluginUri: JsValue, x02: string, pageItems: string)

  /** Why a refresh threw before issuing its request. */
  datatype RefreshFailure =
    | ThumbnailsMissing    // `thumbsSwiper` is undefined: thumbnails were not enabled
    | PageItemsNotAString  // `pageItemsToSubmit` is truthy but has no `split` method

  datatype RefreshOutcome = Sent(request: Request) | Threw(failure: RefreshFailure)

  /**
   * The background size every gallery slide is given: the custom
   * percentage when the image size is `'custom'`, otherwise the image size
   * itself, which defaults to `'cover'`.
   */
  function BackgroundSize(c: Config): (v: JsValue)
    ensures c.imageSize == Str("custom") ==> v == Str(ToJsString(c.imageSizeCustom) + "%")
    ensures c.imageSize == Str("custom") && c.imageSizeCustom.Num? ==>
              v == Str(IntToString(c.imageSizeCustom.n) + "%")
    ensures c.imageSize.Undef? ==> v == Str("cover")
    ensures !c.imageSize.Undef? && c.imageSize != Str("custom") ==> v == c.imageSize
  {
    var imageSize := OrDefault(c.imageSize, Str("cover"));
    if LooseEqualsWord(imageSize, "custom") then Str(ToJsString(c.imageSizeCustom) + "%") else imageSize
  }

  /** Freshly added gallery slides, one per URL, with no background size set yet. */
  function NewSlides(urls: seq<string>): (r: seq<GallerySlide>)
    ensures |r| == |urls|
    ensures forall i :: 0 <= i < |r| ==> r[i] == GallerySlide(urls[i], None)
  {
    seq(|urls|, i requires 0 <= i < |urls| => GallerySlide(urls[i], None))
  }

  /** The slides after the background-size pass: same images, in the same order, all of one size. */
  function WithBackgroundSize(slides: seq<GallerySlide>, size: JsValue): (r: seq<GallerySlide>)
    ensures |r| == |slides|
    ensures forall i :: 0 <= i < |r| ==> r[i].url == slides[i].url && r[i].backgroundSize == Some(size)
  {
    seq(|slides|, i requires 0 <= i < |slides| => slides[i].(backgroundSize := Some(size)))
  }

  /** Running the background-size pass twice changes nothing more than running it once. */
  lemma BackgroundSizeIdempotent(slides: seq<GallerySlide>, size: JsValue)
    ensures WithBackgroundSize(WithBackgroundSize(slides, size), size) == WithBackgroundSize(slides, size)
  {
  }

  /** `addSlide(index, slide)`: the slide is inserted before position `index`. */
  function InsertAt<T>(s: seq<T>, index: nat, x: T): (r: seq<T>)
    requires index <= |s|
    ensures |r| == |s| + 1 && r[index] == x
    ensures r[..index] == s[..index] && r[index + 1..] == s[index..]
  {
    s[..index] + [x] + s[index..]
  }

  /**
   * The icon classes after a fullscreen change: the compress glyph and not
   * the expand glyph in fullscreen, the reverse outside it, and every other
   * class kept.
   */
  function IconClassesAfter(classes: set<string>, fullscreen: bool): (r: set<string>)
    ensures fullscreen ==> IconFullscreenOn in r && IconFullscreenOff !in r
    ensures !fullscreen ==> IconFullscreenOff in r && IconFullscreenOn !in r
    ensures r - {IconFullscreenOn, IconFullscreenOff} == classes - {IconFullscreenOn, IconFullscreenOff}
  {
    if fullscreen then classes - {IconFullscreenOff} + {IconFullscreenOn}
    else classes - {IconFullscreenOn} + {IconFullscreenOff}
  }

  /** Only the latest fullscreen change decides the icon: an earlier one leaves no trace. */
  lemma IconFollowsLastChange(classes: set<string>, first: bool, second: bool)
    ensures IconClassesAfter(IconClassesAfter(classes, first), second) == IconClassesAfter(classes, second)
  {
  }

  class SliderInstance {
    /** The gallery widget's slides. */
    var gallery: seq<GallerySlide>
    /** The thumbnail widget's slides, by image URL; `None` when no thumbnail widget was created. */
    var thumbs: Option<seq<string>>
    /** The page-level error messages on display. */
    var errors: seq<string>
    /** The classes of the fullscreen button's icon element. */
    var iconClasses: set<string>

    const backgroundSize: JsValue
    const pluginUri: JsValue
    const pageItemsToSubmit: JsValue

    constructor (gallerySlides: seq<string>, thumbSlides: Option<seq<string>>, iconClasses: set<string>,
                 backgroundSize: JsValue, pluginUri: JsValue, pageItemsToSubmit: JsValue)
      ensures gallery == NewSlides(gallerySlides) && thumbs == thumbSlides && errors == []
      ensures this.iconClasses == iconClasses
      ensures this.backgroundSize == backgroundSize && this.pluginUri == pluginUri
      ensures this.pageItemsToSubmit == pageItemsToSubmit
    {
      gallery := NewSlides(gallerySlides);
      thumbs := thumbSlides;
      errors := [];
      this.iconClasses := iconClasses;
      this.backgroundSize := backgroundSize;
      this.pluginUri := pluginUri;
      this.pageItemsToSubmit := pageItemsToSubmit;
    }

    /** Sets the configured background size on every gallery slide element, one by one. */
    method ApplyBackgroundSize()
      modifies this`gallery
      ensures gallery == WithBackgroundSize(old(gallery), backgroundSize)
    {
      var i := 0;
      while i < |gallery|
        invariant 0 <= i <= |gallery| == |old(gallery)|
        invariant forall k :: 0 <= k < i ==> gallery[k] == old(gallery)[k].(backgroundSize := Some(backgroundSize))
        invariant forall k :: i <= k < |gallery| ==> gallery[k] == old(gallery)[k]
      {
        gallery := gallery[i := gallery[i].(backgroundSize := Some(backgroundSize))];
        i := i + 1;
      }
    }

    /**
     * Replaces every slide of both widgets with the images of a fresh
     * server response. The page's errors are cleared and both slide lists
     * emptied first; without a thumbnail widget, or with a page-item list
     * that is not a string, the refresh throws there. Otherwise the request
     * goes out, and on success slide `i` of each widget shows `result[i]`,
     * in order and without deduplication, the gallery slides all carrying
     * the configured background size; on error the response text is shown
     * and both lists stay empty.
     */
    method Refresh(response: Response) returns (outcome: RefreshOutcome)
      modifies this`gallery, this`thumbs, this`errors
      ensures old(thumbs).None? ==>
                outcome == Threw(ThumbnailsMissing) && gallery == [] && thumbs.None? && errors == []
      ensures old(thumbs).Some? && PageItemsSource(pageItemsToSubmit).None? ==>
                outcome == Threw(PageItemsNotAString) && gallery == [] && thumbs == Some([]) && errors == []
      ensures old(thumbs).Some? && PageItemsSource(pageItemsToSubmit).Some? ==>
                outcome == Sent(Request(pluginUri, BlobUrls, Rewrite(PageItemsSource(pageItemsToSubmit).value)))
      ensures outcome.Sent? && response.Success? ==>
                |gallery| == |response.result| && thumbs == Some(response.result) && errors == [] &&
                (forall i :: 0 <= i < |gallery| ==>
                  gallery[i].url == response.result[i] && gallery[i].backgroundSize == Some(backgroundSize))
      ensures outcome.Sent? && response.Error? ==>
                gallery == [] && thumbs == Some([]) && errors == [response.responseText]
    {
      errors := [];
      gallery := [];
      if thumbs.None? {
        return Threw(ThumbnailsMissing);
      }
      thumbs := Some([]);
      var pageItems := PageItemsSource(pageItemsToSubmit);
      if pageItems.None? {
        return Threw(PageItemsNotAString);
      }
      outcome := Sent(Request(pluginUri, BlobUrls, Rewrite(pageItems.value)));
      match response {
        case Success(result) =>
          AddSlides(result);
          ApplyBackgroundSize();
        case Error(responseText) =>
          errors := errors + [responseText];
      }
    }

    /** The success callback's loop: for each URL in order, `addSlide(i, …)` on both widgets. */
    method AddSlides(result: seq<string>)
      requires gallery == [] && thumbs == Some([])
      modifies this`gallery, this`thumbs
      ensures gallery == NewSlides(result) && thumbs == Some(result)
    {
      var i := 0;
      while i < |result|
        invariant 0 <= i <= |result|
        invariant gallery == NewSlides(result[..i])
        invariant thumbs == Some(result[..i])
      {
        assert result[..i + 1] == result[..i] + [result[i]];
        assert InsertAt(result[..i], i, result[i]) == result[..i + 1];
        gallery := InsertAt(gallery, i, GallerySlide(result[i], None));
        thumbs := Some(InsertAt(thumbs.value, i, result[i]));
        i := i + 1;
      }
      assert result[..i] == result;
    }

    /** The fullscreen-change handler: swaps the icon glyph and names the event it re-publishes. */
    method OnFullscreenChange(fullscreen: bool) returns (event: string)
      modifies this`iconClasses
      ensures iconClasses == IconClassesAfter(old(iconClasses), fullscreen)
      ensures event == if fullscreen then FullscreenEnterEvent else FullscreenExitEvent
    {
      if fullscreen {
        iconClasses := iconClasses - {IconFullscreenOff};
        iconClasses := iconClasses + {IconFullscreenOn};
        event := FullscreenEnterEvent;
      } else {
        iconClasses := iconClasses - {IconFullscreenOn};
        iconClasses := iconClasses + {IconFullscreenOff};
        event := FullscreenExitEvent;
      }
    }
  }

  /**
   * `initSlider`: normalises the configuration, computes the region style
   * and the gallery options, creates the instance over the slides already in
   * the markup (with a thumbnail widget only when thumbnails are enabled),
   * and runs the background-size pass.
   */
  method InitSlider(config: Config, initJs: InitHook, gallerySlides: seq<string>, thumbSlides: seq<string>,
                    iconClasses: set<string>)
    returns (style: string, options: GalleryOptions, slider: SliderInstance)
    ensures fresh(slider)
    ensures style == Declaration("width", OrDefault(Normalize(config, initJs).width, Num(800))) +
                     Declaration("height", OrDefault(Normalize(config, initJs).height, Num(500)))
    ensures options == GalleryOptionsOf(Normalize(config, initJs))
    ensures options.thumbs.Some? <==> slider.thumbs.Some?
    ensures slider.thumbs == if Truthy(Normalize(config, initJs).thumbnailsEnabled) then Some(thumbSlides) else None
    ensures slider.gallery == WithBackgroundSize(NewSlides(gallerySlides), BackgroundSize(Normalize(config, initJs)))
    ensures slider.errors == [] && slider.iconClasses == iconClasses
    ensures slider.pageItemsToSubmit == Normalize(config, initJs).pageItemsToSubmit
    ensures slider.pluginUri == Normalize(config, initJs).pluginUri
    ensures slider.backgroundSize == BackgroundSize(Normalize(config, initJs))
    ensures options.slidesPerView == SlidesPerView(Normalize(config, initJs).imagesPerRegion)
    ensures options.speed.Some? <==> options.slidesPerView > 1
    ensures initJs.None? && options.slidesPerView > 1 ==>
              options.speed == Some(Num(300)) && options.spaceBetween == Some(Num(0)) &&
              options.watchSlidesProgress == Some(Bool(true)) && options.breakpoints == Some(EmptyObject)
  {
    var c := Normalize(config, initJs);
    style := BuildRegionStyle(c);
    options := BuildGalleryOptions(c);
    var thumbnails := if Truthy(c.thumbnailsEnabled) then Some(thumbSlides) else None;
    slider := new SliderInstance(gallerySlides, thumbnails, iconClasses, BackgroundSize(c), c.pluginUri,
                                 c.pageItemsToSubmit);
    slider.ApplyBackgroundSize();
  }
}
