/**
 * The control object registered for the region: each operation forwards
 * one call to the gallery widget, filling in omitted arguments.
 */
module Controls {
  import opened JsValues

  /** A call the control object makes on the gallery widget. */
  datatype WidgetCall =
    | SlideNext(speed: JsValue, runCallbacks: JsValue)
    | SlidePrev(speed: JsValue, runCallbacks: JsValue)
    | SlideTo(index: JsValue, speed: JsValue, runCallbacks: JsValue)
    | StopAutoplay
    | StartAutoplay
    | NoCall

  /** The default transition duration, in milliseconds. */
  const DefaultSpeed: JsValue := Num(300)

  /** By default the widget's slide-change callbacks run. */
  const DefaultRunCallbacks: JsValue := Bool(true)

  /** `slideNext(speed = 300, runCallbacks = true)`; an omitted argument is `undefined`. */
  function SlideNextCall(speed: JsValue, runCallbacks: JsValue): (call: WidgetCall)
    ensures call.SlideNext?
    ensures call.speed == (if speed.Undef? then Num(300) else speed)
    ensures call.runCallbacks == (if runCallbacks.Undef? then Bool(true) else runCallbacks)
  {
    SlideNext(OrDefault(speed, DefaultSpeed), OrDefault(runCallbacks, DefaultRunCallbacks))
  }

  /** `slidePrev(speed = 300, runCallbacks = true)`. */
  function SlidePrevCall(speed: JsValue, runCallbacks: JsValue): (call: WidgetCall)
    ensures call.SlidePrev?
    ensures call.speed == (if speed.Undef? then Num(300) else speed)
    ensures call.runCallbacks == (if runCallbacks.Undef? then Bool(true) else runCallbacks)
  {
    SlidePrev(OrDefault(speed, DefaultSpeed), OrDefault(runCallbacks, DefaultRunCallbacks))
  }

  /** `slideTo(index, speed = 300, runCallbacks = true)`: the index is passed on as given. */
  function SlideToCall(index: JsValue, speed: JsValue, runCallbacks: JsValue): (call: WidgetCall)
    ensures call.SlideTo? && call.index == index
    ensures call.speed == (if speed.Undef? then Num(300) else speed)
    ensures call.runCallbacks == (if runCallbacks.Undef? then Bool(true) else runCallbacks)
  {
    SlideTo(index, OrDefault(speed, DefaultSpeed), OrDefault(runCallbacks, DefaultRunCallbacks))
  }

  /** Omitting the speed and the callback flag is the same as passing 300 and `true`. */
  lemma OmittedArgumentsAreDefaults(index: JsValue)
    ensures SlideToCall(index, Undef, Undef) == SlideToCall(index, Num(300), Bool(true))
    ensures SlideNextCall(Undef, Undef) == SlideNextCall(Num(300), Bool(true))
    ensures SlidePrevCall(Undef, Undef) == SlidePrevCall(Num(300), Bool(true))
  {
  }

  /**
   * `stopAutoplay()` / `startAutoplay()`: the widget's autoplay is stopped or
   * started only when the widget has an autoplay object; otherwise nothing
   * happens and nothing is thrown.
   */
  function AutoplayCall(hasAutoplay: bool, start: bool): (call: WidgetCall)
    ensures !hasAutoplay <==> call == NoCall
    ensures hasAutoplay ==> call == if start then StartAutoplay else StopAutoplay
  {
    if !hasAutoplay then NoCall else if start then StartAutoplay else StopAutoplay
  }
}
