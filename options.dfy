/**
 * The option records handed to the carousel widgets: the gallery's,
 * built field by field from the normalised configuration, and the
 * thumbnail strip's.
 */
module SliderOptions {
  import opened Wrappers
  import opened JsValues
  import opened JsNumbers
  import opened SliderConfig

  datatype Keyboard = Keyboard(enabled: bool, onlyInViewport: bool)

  datatype Lazy = Lazy(loadPrevNext: bool, checkInView: bool)

  /** Autoplay settings; the delay is derived from `delaySecs` by a floating-point conversion not modelled here. */
  datatype Autoplay = Autoplay(delaySecs: JsValue, disableOnInteraction: bool, pauseOnMouseEnter: bool)

  /** Pagination bullets; the bullet container element is a DOM lookup and is not modelled. */
  datatype Pagination = Pagination(clickable: bool, hideOnClick: JsValue)

  /** Navigation buttons; the button elements are DOM lookups and are not modelled. */
  datatype Navigation = Navigation(hideOnClick: JsValue)

  /** The thumbnail strip's `slidesPerView`: `'auto'` or a parsed count. */
  datatype ThumbCount = Auto | Fixed(n: IntOrNaN)

  datatype ThumbOptions = ThumbOptions(
    observer: bool,
    observeSlideChildren: bool,
    spaceBetween: int,
    slidesPerView: ThumbCount,
    watchSlidesVisibility: bool,
    watchSlidesProgress: bool,
    autoplay: bool,
    loop: bool)

  /**
   * The gallery widget's options. Keys the adapter may leave out are
   * `Option`s; `thumbs` stands for the thumbnail widget the gallery is
   * linked to, given by the options it was built from.
   */
  datatype GalleryOptions = GalleryOptions(
    observer: bool,
    observeSlideChildren: bool,
    keyboard: Keyboard,
    lazy: Lazy,
    loop: JsValue,
    slidesPerView: int,
    effect: JsValue,
    direction: JsValue,
    initialSlide: int,
    autoplay: Option<Autoplay>,
    pagination: Option<Pagination>,
    navigation: Option<Navigation>,
    thumbs: Option<ThumbOptions>,
    speed: Option<JsValue>,
    spaceBetween: Option<JsValue>,
    watchSlidesProgress: Option<JsValue>,
    breakpoints: Option<JsValue>)

  /**
   * `parseInt(imagesPerRegion) || 1`, with `imagesPerRegion` defaulting to 1:
   * the parsed number when it is not zero, and 1 when parsing gives zero or
   * `NaN` or the field is absent.
   */
  function SlidesPerView(imagesPerRegion: JsValue): (n: int)
    ensures n != 0
    ensures ParseInt(OrDefault(imagesPerRegion, Num(1))) == Int(n) ||
            (n == 1 && ParseInt(OrDefault(imagesPerRegion, Num(1))) in {NaN, Int(0)})
    ensures imagesPerRegion.Undef? ==> n == 1
    ensures imagesPerRegion.Num? ==> n == if imagesPerRegion.n == 0 then 1 else imagesPerRegion.n
  {
    var v := OrDefault(imagesPerRegion, Num(1));
    match ParseInt(v)
    case Int(k) => if k != 0 then k else 1
    case NaN => 1
  }

  /**
   * `transition == 'slide' ? false : transition`, with `transition`
   * defaulting to `'slide'`: the widget's own slide effect is selected by
   * `false`, any other transition is passed on unchanged.
   */
  function Effect(transition: JsValue): (e: JsValue)
    ensures (transition.Undef? || transition == Str("slide")) ==> e == Bool(false)
    ensures !transition.Undef? && transition != Str("slide") ==> e == transition
  {
    var t := OrDefault(transition, Str("slide"));
    if LooseEqualsWord(t, "slide") then Bool(false) else t
  }

  /**
   * The thumbnail strip's options: `'auto'` slides per view exactly when the
   * count (default 5) loosely equals zero, otherwise the parsed count; the
   * spacing, looping and autoplay settings are fixed whatever the gallery's.
   */
  function ThumbnailOptions(c: Config): (t: ThumbOptions)
    ensures t.slidesPerView.Auto? <==> LooseEqualsZero(OrDefault(c.thumbnails, Num(5)))
    ensures t.slidesPerView.Fixed? ==> t.slidesPerView.n == ParseInt(OrDefault(c.thumbnails, Num(5)))
    ensures c.thumbnails.Undef? ==> t.slidesPerView == Fixed(Int(5))
    ensures c.thumbnails.Num? ==>
              t.slidesPerView == if c.thumbnails.n == 0 then Auto else Fixed(Int(c.thumbnails.n))
    ensures t.spaceBetween == 6 && !t.loop && !t.autoplay
    ensures t.observer && t.observeSlideChildren && t.watchSlidesVisibility && t.watchSlidesProgress
  {
    var count := OrDefault(c.thumbnails, Num(5));
    ThumbOptions(
      observer := true,
      observeSlideChildren := true,
      spaceBetween := 6,
      slidesPerView := if LooseEqualsZero(count) then Auto else Fixed(ParseInt(count)),
      watchSlidesVisibility := true,
      watchSlidesProgress := true,
      autoplay := false,
      loop := false)
  }

  /**
   * The gallery options the adapter passes to the widget: the base keys,
   * each optional key exactly when its flag is truthy, and the four tuning
   * keys exactly when more than one image is shown at a time.
   */
  function GalleryOptionsOf(c: Config): (g: GalleryOptions)
    ensures g.slidesPerView == SlidesPerView(c.imagesPerRegion)
    ensures g.effect == Effect(c.transition)
    ensures g.loop == c.loop && g.direction == OrDefault(c.direction, Str("horizontal"))
    ensures g.initialSlide == 0 && g.observer && g.observeSlideChildren
    ensures g.keyboard == Keyboard(true, true) && g.lazy == Lazy(true, true)
    ensures g.autoplay.Some? <==> Truthy(c.autoplay)
    ensures g.autoplay.Some? ==> g.autoplay.value == Autoplay(c.delaySecs, false, true)
    ensures g.pagination.Some? <==> Truthy(c.pagination)
    ensures g.pagination.Some? ==> g.pagination.value == Pagination(true, c.hidePaginationOnClick)
    ensures g.navigation.Some? <==> Truthy(c.navigation)
    ensures g.navigation.Some? ==> g.navigation.value == Navigation(c.hideNavigationOnClick)
    ensures g.thumbs.Some? <==> Truthy(c.thumbnailsEnabled)
    ensures g.thumbs.Some? ==> g.thumbs.value == ThumbnailOptions(c)
    ensures g.speed.Some? <==> g.slidesPerView > 1
    ensures g.spaceBetween.Some? <==> g.slidesPerView > 1
    ensures g.watchSlidesProgress.Some? <==> g.slidesPerView > 1
    ensures g.breakpoints.Some? <==> g.slidesPerView > 1
    ensures g.slidesPerView > 1 ==>
              g.speed.value == c.speed && g.spaceBetween.value == c.spaceBetween &&
              g.watchSlidesProgress.value == c.watchSlidesProgress && g.breakpoints.value == c.breakPoints
  {
    var perView := SlidesPerView(c.imagesPerRegion);
    GalleryOptions(
      observer := true,
      observeSlideChildren := true,
      keyboard := Keyboard(enabled := true, onlyInViewport := true),
      lazy := Lazy(loadPrevNext := true, checkInView := true),
      loop := c.loop,
      slidesPerView := perView,
      effect := Effect(c.transition),
      direction := OrDefault(c.direction, Str("horizontal")),
      initialSlide := 0,
      autoplay := if Truthy(c.autoplay) then Some(Autoplay(c.delaySecs, false, true)) else None,
      pagination := if Truthy(c.pagination) then Some(Pagination(true, c.hidePaginationOnClick)) else None,
      navigation := if Truthy(c.navigation) then Some(Navigation(c.hideNavigationOnClick)) else None,
      thumbs := if Truthy(c.thumbnailsEnabled) then Some(ThumbnailOptions(c)) else None,
      speed := if perView > 1 then Some(c.speed) else None,
      spaceBetween := if perView > 1 then Some(c.spaceBetween) else None,
      watchSlidesProgress := if perView > 1 then Some(c.watchSlidesProgress) else None,
      breakpoints := if perView > 1 then Some(c.breakPoints) else None)
  }

  /**
   * The gallery options, built as the adapter builds them: a base record,
   * then each optional key added when its flag is truthy, and the four
   * tuning keys added only when more than one image is shown at a time.
   */
  method BuildGalleryOptions(c: Config) returns (g: GalleryOptions)
    ensures g == GalleryOptionsOf(c)
  {
    g := GalleryOptions(
      observer := true,
      observeSlideChildren := true,
      keyboard := Keyboard(enabled := true, onlyInViewport := true),
      lazy := Lazy(loadPrevNext := true, checkInView := true),
      loop := c.loop,
      slidesPerView := SlidesPerView(c.imagesPerRegion),
      effect := Effect(c.transition),
      direction := OrDefault(c.direction, Str("horizontal")),
      initialSlide := 0,
      autoplay := None,
      pagination := None,
      navigation := None,
      thumbs := None,
      speed := None,
      spaceBetween := None,
      watchSlidesProgress := None,
      breakpoints := None);
    if Truthy(c.autoplay) {
      g := g.(autoplay := Some(Autoplay(c.delaySecs, disableOnInteraction := false, pauseOnMouseEnter := true)));
    }
    if Truthy(c.pagination) {
      g := g.(pagination := Some(Pagination(clickable := true, hideOnClick := c.hidePaginationOnClick)));
    }
    if Truthy(c.navigation) {
      g := g.(navigation := Some(Navigation(hideOnClick := c.hideNavigationOnClick)));
    }
    if Truthy(c.thumbnailsEnabled) {
      g := g.(thumbs := Some(ThumbnailOptions(c)));
    }
    if g.slidesPerView > 1 {
      g := g.(speed := Some(c.speed));
      g := g.(spaceBetween := Some(c.spaceBetween));
      g := g.(watchSlidesProgress := Some(c.watchSlidesProgress));
      g := g.(breakpoints := Some(c.breakPoints));
    }
  }
}
