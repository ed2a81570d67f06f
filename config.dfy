/**
 * The slider's configuration record and its normalisation: the tuning
 * defaults are written over the caller's values, then the optional
 * initialisation hook may change any field.
 */
module SliderConfig {
  import opened Wrappers
  import opened JsValues

  /** The configuration object passed to `initSlider`, one field per property it reads. */
  datatype Config = Config(
    regionId: JsValue,
    width: JsValue,
    height: JsValue,
    transition: JsValue,
    autoplay: JsValue,
    delaySecs: JsValue,
    imagesPerRegion: JsValue,
    pagination: JsValue,
    hidePaginationOnClick: JsValue,
    navigation: JsValue,
    hideNavigationOnClick: JsValue,
    thumbnailsEnabled: JsValue,
    thumbnails: JsValue,
    fullscreenSupport: JsValue,
    loop: JsValue,
    direction: JsValue,
    imageSize: JsValue,
    imageSizeCustom: JsValue,
    pluginUri: JsValue,
    pageItemsToSubmit: JsValue,
    watchSlidesProgress: JsValue,
    speed: JsValue,
    spaceBetween: JsValue,
    breakPoints: JsValue,
    /** Documented as the breakpoint table, but never read: the code reads `breakPoints`. */
    breakpoints: JsValue)

  /**
   * The optional initialisation hook, present only when the caller passed a
   * function; it may rewrite any field of the configuration.
   */
  type InitHook = Option<Config -> Config>

  /**
   * The tuning fields forced onto the configuration before the hook runs:
   * whatever the caller supplied for them is replaced, and nothing else
   * changes.
   */
  function WithDefaults(c: Config): (r: Config)
    ensures r.watchSlidesProgress == Bool(true) && r.speed == Num(300)
    ensures r.spaceBetween == Num(0) && r.breakPoints == EmptyObject
    ensures r.(watchSlidesProgress := c.watchSlidesProgress, speed := c.speed,
               spaceBetween := c.spaceBetween, breakPoints := c.breakPoints) == c
  {
    c.(watchSlidesProgress := Bool(true), speed := Num(300), spaceBetween := Num(0),
       breakPoints := EmptyObject)
  }

  /** The configuration every later step reads: the defaults, then the hook if there is one. */
  function Normalize(c: Config, initJs: InitHook): (r: Config)
    ensures initJs.None? ==> r == WithDefaults(c)
    ensures initJs.Some? ==> r == initJs.value(WithDefaults(c))
  {
    var d := WithDefaults(c);
    match initJs
    case None => d
    case Some(hook) => hook(d)
  }

  /**
   * Without a hook, two configurations that differ only in the four tuning
   * fields normalise to the same configuration: the caller's values for
   * them are discarded.
   */
  lemma CallerTuningDiscarded(c1: Config, c2: Config)
    requires c1.(watchSlidesProgress := Undef, speed := Undef, spaceBetween := Undef, breakPoints := Undef)
          == c2.(watchSlidesProgress := Undef, speed := Undef, spaceBetween := Undef, breakPoints := Undef)
    ensures Normalize(c1, None) == Normalize(c2, None)
  {
  }
}
