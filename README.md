# FOS image slider: a verified model of the configuration adapter

The FOS image slider is an Oracle APEX region plug-in. Its `initSlider`
function turns the region's configuration object into options for the
Swiper carousel library. It then builds the gallery widget and, optionally,
a linked thumbnail strip, and registers a control object for the region.
This project models the deterministic part of that adapter in Dafny:

- **Configuration normalisation** (`SliderConfig`). The four tuning
  defaults overwrite the caller's values. Then the optional `initJs` hook
  runs, modelled as an arbitrary `Config -> Config` transform.
- **Option records** (`SliderOptions`). The gallery options are built
  field by field as `swiperCfg` is. The thumbnail options are a separate
  record.
- **Region inline style** (`RegionStyle`).
- **Page-item list rewrite** (`PageItems`). The comma-separated item names
  become `#name` selectors.
- **Slider instance** (`Slider`). A class holds the two widgets' slide
  lists, the page's error messages and the fullscreen icon's classes. Its
  methods are the background-size pass, `refreshSliderUrl` and the
  fullscreen-change handler. `InitSlider` ties everything together.
- **Control surface** (`Controls`). Argument defaults and the calls made
  on the gallery widget.

JavaScript values are the datatype `JsValues.JsValue`. The coercions the
adapter depends on are written out: truthiness, `String(v)`, destructuring
defaults, `parseInt` (`JsNumbers.ParseInt`, including the `0x` prefix) and
loose `== 0` / `== 'word'`. `trim`, `split` and `join` are in `JsStrings`.

Notes on the code:

- The four tuning fields (`speed`, `spaceBetween`, `watchSlidesProgress`,
  `breakPoints`) are overwritten unconditionally, not only when unset
  (`files/js/script.js:40-43`). So without `initJs`, caller values are
  discarded.
- The parameter documentation at `:30` names `config.breakpoints`, but the
  code writes and reads `config.breakPoints`. A caller's `breakpoints` is
  never forwarded (`Config.breakpoints` is read by nothing).
- An absent width or height defaults to 800 and 500 pixels (`:65-67`).
- `refreshSliderUrl` dereferences `thumbsSwiper` unconditionally (`:221`).
  Without a thumbnail widget, `SliderInstance.Refresh` therefore ends in
  `Threw(ThumbnailsMissing)`. By then the gallery has already been emptied
  and no request has been sent.
- The `pluginUri` guard around `refresh` is commented out (`:328-330`).
  `Refresh` does not consult it.

## Model

| member | source | states |
|---|---|---|
| `JsValues.Truthy` | files/js/script.js:105-146 | `undefined`, `null`, `false`, `0` and `''` are falsy and every other value is truthy, as the `if (x)` tests and `x ? x : ''` read it |
| `JsValues.ToJsString` | files/js/script.js:108-111 | `String(v)`: a string is itself, a number its decimal notation, and `undefined`, `null`, booleans and plain objects their fixed spellings; only a string can give `''` |
| `JsNumbers.LooselyEqualsString` | files/js/script.js:99 | loose `v == s` follows the steps of `==`: a string compares by identity, a number with `Number(s)`, a boolean as 1 or 0, an object through `'[object Object]'`, and `null`/`undefined` match no string; a number or boolean can match only a numeric string |
| `JsNumbers.LooseEqualityExamples` | files/js/script.js:99 | `5 == '5'`, `-15 == '-1.5e1'`, `31 == '0x1F'` and `true == '1'` hold, and `5 == '5px'` does not |
| `JsNumbers.WordEqualityIsIdentity` | files/js/script.js:99 | for a lower-case word, as in `== 'slide'` and `== 'custom'` (`:174`), loose equality is string identity (`LooseEqualsWord`) for every value |
| `JsNumbers.WordIsNotNumeric` | files/js/script.js:99 | a lower-case word is no numeric literal for `Number` and does not read as zero, so no number or boolean loosely equals it |
| `JsStrings.Join` | files/js/script.js:231 | `.join(sep)`: no pieces give `''`; otherwise the first piece starts the result, a separator follows it when there are more, and the length is the pieces' total plus one separator between each pair of neighbours |
| `JsValues.OrDefault` | files/js/script.js:65-85 | a destructuring default replaces `undefined` only; every other value, `null` and falsy ones included, is kept |
| `JsStrings.Trim` | files/js/script.js:229 | the result is a slice of the input with only white space cut from either end, has no white space at either end, and is the input itself when the input has no white space |
| `JsStrings.Split` | files/js/script.js:228 | there is one piece more than there are separators, and no piece contains the separator |
| `JsStrings.JoinSplit` | files/js/script.js:228-231 | joining the pieces of a split gives back the original string |
| `JsStrings.SplitJoin` | files/js/script.js:228-231 | splitting a join of separator-free pieces gives back exactly those pieces |
| `JsStrings.JoinCount` | files/js/script.js:231 | a join of k+1 separator-free pieces contains exactly k separators |
| `JsNumbers.ParseInt` | files/js/script.js:98 | an integer-valued number parses as itself; `undefined`, `null`, booleans and plain objects parse as `NaN` |
| `JsNumbers.ParseIntOfNumber` | files/js/script.js:98 | `parseInt` returns an integer-valued number unchanged and reads its decimal notation back as that number |
| `JsNumbers.LooseEqualsZero` | files/js/script.js:152 | a non-string equals 0 exactly when it is `false` or the number 0; a blank string equals 0; any other string that equals 0 contains the digit `0` |
| `JsNumbers.ZeroSpellings` | files/js/script.js:152 | `== 0` holds for `''`, `'0'`, `' 0 '`, `'0.0'` and `false`, and fails for `null`, `undefined` and `'5'` |
| `SliderConfig.WithDefaults` | files/js/script.js:39-43 | speed 300, spacing 0, progress watching on and an empty breakpoint table are forced, and no other field changes |
| `SliderConfig.Normalize` | files/js/script.js:45-48 | without a hook the configuration is the defaulted one; with a hook it is the hook applied to the defaulted one |
| `SliderConfig.CallerTuningDiscarded` | files/js/script.js:39-48 | without a hook, configurations that differ only in the four tuning fields normalise identically |
| `SliderOptions.SlidesPerView` | files/js/script.js:98 | never zero; the parsed `imagesPerRegion` when that is a non-zero integer, 1 when parsing gives 0 or NaN or the field is absent (default 1, `:70`); a non-zero number is used as is |
| `SliderOptions.Effect` | files/js/script.js:99 | `false` when the transition is `'slide'` or absent (default `'slide'`, `:79`), otherwise the transition unchanged |
| `SliderOptions.ThumbnailOptions` | files/js/script.js:148-157 | `'auto'` slides per view exactly when the count (default 5, `:77`) loosely equals 0, otherwise the parsed count; spacing 6, no loop and no autoplay regardless of the gallery |
| `SliderOptions.GalleryOptionsOf` | files/js/script.js:86-168 | autoplay, pagination, navigation and thumbs are present exactly when their flags are truthy, with autoplay never disabled by interaction and paused on hover, clickable pagination, copied `hideOnClick` flags and the thumbnail options; speed, spacing, progress watching and breakpoints are present exactly when more than one slide is shown, copied from the configuration; effect, direction (default `'horizontal'`), loop, keyboard and lazy loading as the adapter sets them |
| `SliderOptions.BuildGalleryOptions` | files/js/script.js:86-168 | the record built key by key, as `swiperCfg` is, equals `GalleryOptionsOf` of the configuration |
| `RegionStyle.Declaration` | files/js/script.js:107-112 | a falsy value gives no declaration; a number gives `prop:<n>px;`; a non-empty string is used verbatim; any other truthy value gives its string form |
| `RegionStyle.AppendDeclaration` | files/js/script.js:107-109 | appending a declaration extends the style by exactly that declaration |
| `RegionStyle.BuildRegionStyle` | files/js/script.js:103-114 | the style is the width declaration followed by the height declaration, and `width:800px;height:500px;` when neither size is given |
| `RegionStyle.DefaultStyle` | files/js/script.js:65-67 | the default sizes render as `width:800px;height:500px;` |
| `PageItems.PageItemsSource` | files/js/script.js:105 | a falsy item list reads as `''`, a string is kept, and any other truthy value has no `split` |
| `PageItems.Selectors` | files/js/script.js:229-230 | each item name is trimmed and prefixed with `#`, one selector per name |
| `PageItems.Rewrite` | files/js/script.js:228-231 | splitting the rewritten list at commas gives the selectors of the input's pieces: as many commas and pieces as the input, the j-th piece being `#` plus the trimmed j-th input piece |
| `PageItems.RewriteEmpty` | files/js/script.js:105 | an absent or empty item list is submitted as `#` |
| `PageItems.RewriteTrimmed` | files/js/script.js:228-231 | a list without white space gets exactly a `#` in front of each of its pieces |
| `Slider.BackgroundSize` | files/js/script.js:174 | the custom percentage with `%` appended when the image size is `'custom'`, the image size otherwise, `'cover'` when absent |
| `Slider.WithBackgroundSize` | files/js/script.js:173-175 | the pass keeps every slide's image and order and gives every slide the same background size |
| `Slider.BackgroundSizeIdempotent` | files/js/script.js:262-264 | running the background-size pass again changes nothing |
| `Slider.InsertAt` | files/js/script.js:242 | `addSlide(i, …)` puts the new slide at position i and shifts later slides up by one |
| `Slider.IconClassesAfter` | files/js/script.js:198-210 | in fullscreen the icon has `fa-compress` and not `fa-expand`, otherwise the reverse; other classes are kept |
| `Slider.IconFollowsLastChange` | files/js/script.js:198-210 | after two fullscreen changes the icon is as if only the last had happened |
| `Slider.SliderInstance.constructor` | files/js/script.js:146-170 | the instance starts with the markup's slides, a thumbnail list only when one is given, and no errors |
| `Slider.SliderInstance.ApplyBackgroundSize` | files/js/script.js:173-175 | every gallery slide gets the configured background size; images and order are unchanged |
| `Slider.SliderInstance.AddSlides` | files/js/script.js:240-256 | from two empty lists, slide i of the gallery and of the thumbnails is `result[i]`, for every i in order |
| `Slider.SliderInstance.Refresh` | files/js/script.js:216-287 | errors are cleared and both lists emptied; without thumbnails, or with a non-string item list, the refresh throws there; otherwise the `BLOB_URLS` request carries the rewritten item list; on success both lists hold the result in order and every gallery slide is sized; on error both lists stay empty and the response text is shown |
| `Slider.SliderInstance.OnFullscreenChange` | files/js/script.js:198-210 | the icon classes become those of `IconClassesAfter`, and the enter or exit event is named |
| `Slider.InitSlider` | files/js/script.js:36-175 | the style, the gallery options, the background size and the plug-in URI all come from the normalised configuration; a thumbnail widget exists exactly when thumbnails are enabled; all markup slides are sized; without a hook, a multi-image gallery gets speed 300, spacing 0, progress watching and `{}` breakpoints |
| `Controls.SlideNextCall` | files/js/script.js:291-293 | an omitted speed becomes 300 and an omitted callback flag `true`; given arguments pass through unchanged |
| `Controls.SlidePrevCall` | files/js/script.js:295-297 | an omitted speed becomes 300 and an omitted callback flag `true`; given arguments pass through unchanged |
| `Controls.SlideToCall` | files/js/script.js:299-301 | the index is passed on as given; an omitted speed becomes 300 and an omitted callback flag `true` |
| `Controls.OmittedArgumentsAreDefaults` | files/js/script.js:291-301 | omitting speed and callback flag is the same as passing 300 and `true` |
| `Controls.AutoplayCall` | files/js/script.js:311-325 | start or stop reaches the widget only when it has an autoplay object; otherwise nothing happens |

## Left out

- The autoplay delay `parseFloat(delaySecs) * 1000` (`:118`) is floating point. `Autoplay` keeps the raw `delaySecs`, so the `NaN` delay for an absent `delaySecs` is not modelled.
- `JsNumbers.ParseInt` returns the exact value of the digit run. JavaScript rounds a result above 2^53 to the nearest double, so `parseInt('9007199254740993')` is 9007199254740992 there, while the model gives 9007199254740993.
- Numbers are integers. Fractional sizes and percentages are not modelled. Neither is the exponent notation JavaScript uses when printing numbers of 1e21 and above.
- `JsNumbers.NumberEquals` compares a numeric literal with an integer exactly. JavaScript first rounds the literal to the nearest double, so literals beyond 2^53 may compare equal to a neighbouring integer there but not in the model.
- `JsNumbers.StringIsZero` covers decimal, `0x`, `0o` and `0b` literals. It does not model `Infinity`, or a non-zero literal that underflows to 0 (for example `'1e-400'`).
- Objects are plain objects. A configuration value with its own `toString` or `valueOf`, an array or a function is not modelled.
- The browser's CSS parsing is not modelled. `Slider.BackgroundSize` and the region style give the value the adapter assigns; the browser may still drop a value it cannot parse.
- Swiper internals are not modelled: transitions, lazy loading, loop-mode duplicate slides, and the layout recomputation of `update()` (`:258-259`, `:282-283`). A slide is represented by its image URL; the HTML templates of `:243-254` are not modelled.
- DOM lookups and element wiring are not modelled: `querySelector`, `addEventListener`, `setAttribute`, the pagination and navigation elements.
- The fullscreen request and its `console.warn` (`:186-196`) are not modelled.
- Event re-publication through `apex.event.trigger` (`:177-184`, `:212-214`) is not modelled. `OnFullscreenChange` only names the event it fires.
- `apex.debug` logging is not modelled.
- The `apex.region.create` registration is not modelled.
- `getGallerySlider` and `getThumbnailsSlider` return opaque widget handles and are not modelled.
- `isAutoplayRunning` reads the widget's internal state and is not modelled.
- The asynchronous `apex.server.plugin` transport is not modelled. `Refresh` takes the response as input and runs the success or error branch at once, so overlapping refreshes are not modelled. A success payload without a `result` list is not modelled either.
- `initSlider` writes the four tuning defaults into the caller's configuration object (`:40-43`) and `initJs` then mutates that same object in place. `SliderConfig.WithDefaults` and `SliderConfig.Normalize` return new values instead, so a caller that keeps a reference to the object and observes either mutation is not captured. An `initJs` that is not a function is the same as none.
