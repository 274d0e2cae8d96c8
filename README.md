# Weather widget: a Dafny model

This project models the logic of the `Weather` React widget
(`src/components/Weather/Weather.jsx`). The widget finds the user's
position, shows the current weather and the place name, and lets the user
pick a background colour. The text colour is then chosen for contrast.

The model has six modules:

- `Contrast` (`contrast.dfy`) covers `calculateContrast`. It decodes a `#RRGGBB` string into three
  channels and compares the weighted luminance `0.2126 r + 0.7152 g + 0.0722 b`
  against 128. The test is done exactly in integers, as
  `2126 r + 7152 g + 722 b > 1280000`. The lemma `ScaledLuminanceIsExact` proves that
  this agrees with the source's formula over exact reals.
- `Icon` (`icon.dfy`) covers `getWeatherIcon` as a pure function of the temperature and the hour.
  The hour is a parameter, where the source reads the clock.
- `Widget` (`widget.dfy`) holds the component's state. It has the six `useState` cells, the two-key store
  (`weatherData`, `location`) and a record of which callbacks are still to come. Each
  event is a pure transition on that state. Sequences of events are handled by
  `Feasible`/`Run`, and `Inv` is the invariant of every reachable state.
- `View` (`view.dfy`) picks what is rendered: the error banner, the card or the loading text. It also
  gives the place-name fallback `city || town || village`.
- `Component` (`component.dfy`) is the component as a class. Its fields are the same cells, and it has
  one method per event handler. Each method updates the fields in place and is
  specified by the matching `Widget` transition.
- `Options` (`options.dfy`) is the `Option` type used for the nullable cells.

Some things the model shows:

- Every event writes only its own cells.
- The error cell keeps the message of the last failure, and no success clears it.
- The two fetch outcomes commute, unless both fail.
- A position fix issues no fetch exactly when both store entries are present.
- Once the mount effects have run, the text colour is always the contrast of the background.
  The first render is the exception: white text on the default background `#4A90E2`,
  which calls for black.
- The render's guards alone would let the banner and the card show together.
  In a reachable state this never happens, so exactly one of the three views shows.
- Pressing the picker button while the picker is open does not close it in the model.
  The mousedown lands outside the picker and closes it. The click that follows then
  toggles it open again. This assumes the widget re-renders between the mousedown and
  the click, so the click handler reads the closed state.

One would expect the text colour always to be the contrast of the background. But
the code starts with `#FFFFFF` (line 24) and only sets the contrast in an effect after
the first render, and the default background `#4A90E2` calls for black. The model
follows the code: the invariant on the text colour holds once the mount effects have run.

## Model

| member | source | states |
|---|---|---|
| Contrast.DigitValue | src/components/Weather/Weather.jsx:7-9 | every radix-16 digit, in either case, has a value below 16 |
| Contrast.ParseByte | src/components/Weather/Weather.jsx:7-9 | a two-digit radix-16 slice decodes to a channel value below 256 |
| Contrast.Decode | src/components/Weather/Weather.jsx:7-9 | the three channels read from positions 1-2, 3-4 and 5-6 each lie in 0..255 |
| Contrast.ParseFormatByte | src/components/Weather/Weather.jsx:7-9 | parsing the two-digit upper-case spelling of a channel value gives the value back |
| Contrast.FormatParseByte | src/components/Weather/Weather.jsx:7-9 | spelling the parsed value of two upper-case digits gives the digits back |
| Contrast.DecodeEncode | src/components/Weather/Weather.jsx:7-9 | decoding inverts the `#RRGGBB` encoding of any in-range colour |
| Contrast.EncodeDecode | src/components/Weather/Weather.jsx:7-9 | every canonical `#RRGGBB` string is the encoding of the colour it decodes to |
| Contrast.LowerMatchesUpper | src/components/Weather/Weather.jsx:7-9 | a lower-case digit `a`-`f` has the value of its upper-case spelling, so lower-case digits are pinned by the upper-case round trips |
| Contrast.DecodeIgnoresCase | src/components/Weather/Weather.jsx:7-9 | strings that differ only in the case of their digits decode alike and get the same contrast |
| Contrast.Luminance | src/components/Weather/Weather.jsx:12 | the scaled luminance of in-range channels is at most 2550000, that is at most 255 before scaling |
| Contrast.SourceLuminance | src/components/Weather/Weather.jsx:12 | the source's weighted sum over exact reals, which lies in 0..255 for in-range channels |
| Contrast.ScaledLuminanceIsExact | src/components/Weather/Weather.jsx:12-15 | the integer luminance is exactly 10000 times the source's weighted sum, so the integer test `> 1280000` agrees with `luminance > 128` |
| Contrast.CalculateContrast | src/components/Weather/Weather.jsx:5-16 | the result is `#000000` or `#FFFFFF`, and black exactly when the weighted luminance exceeds 128 |
| Contrast.ContrastOfExtremes | src/components/Weather/Weather.jsx:12-15 | `#000000` gets white text and `#FFFFFF` gets black text |
| Contrast.ExactBoundaryIsWhite | src/components/Weather/Weather.jsx:15 | `#808080` has luminance exactly 128 and, since the comparison is strict, gets white text |
| Contrast.DefaultBackgroundIsLight | src/components/Weather/Weather.jsx:22 | the default background `#4A90E2` calls for black text |
| Contrast.ContrastMonotone | src/components/Weather/Weather.jsx:12-15 | a background at least as bright in every channel as one with black text also gets black text |
| Icon.Glyph.Text | src/components/Weather/Weather.jsx:112-118 | the seven emoji strings; exactly the snowflake and the sun behind a cloud carry the variation selector U+FE0F as a second character |
| Icon.TextIsInjective | src/components/Weather/Weather.jsx:112-118 | distinct glyphs render as distinct text |
| Icon.BandsPartition | src/components/Weather/Weather.jsx:111-119 | the four temperature bands (<0, [0,20), [20,30), >=30) cover every temperature and do not overlap |
| Icon.WeatherIcon | src/components/Weather/Weather.jsx:107-120 | the glyph's band is the temperature's band; outside the freezing band the day glyph is chosen exactly when 6 <= hour < 18 |
| Icon.IconDeterminedByBandAndDaytime | src/components/Weather/Weather.jsx:108-119 | two readings get the same glyph exactly when they share a band and, unless freezing, agree on day or night |
| Icon.FreezingIgnoresHour | src/components/Weather/Weather.jsx:111-112 | below zero the glyph is the snowflake at every hour |
| Icon.IconExamples | src/components/Weather/Weather.jsx:109-119 | sample readings at the band boundaries and the ends of the day window |
| Widget.Initial | src/components/Weather/Weather.jsx:19-24 | the first render: no data, no error, picker closed, background `#4A90E2`, text `#FFFFFF`, the store as found |
| Widget.OnMount | src/components/Weather/Weather.jsx:59-83 | the mount effects: the position request opens when geolocation is supported, otherwise the error is the unsupported message; the text colour becomes the contrast of the background; nothing else is written |
| Widget.OnPositionError | src/components/Weather/Weather.jsx:75 | a failed position request sets only the error, to its own message |
| Widget.OnPosition | src/components/Weather/Weather.jsx:62-73 | no fetch is issued exactly when both store entries are present, and then both cells are loaded from the store; otherwise both fetches are issued and no cell changes |
| Widget.OnWeatherLoaded | src/components/Weather/Weather.jsx:38-41 | a weather success sets only its own cell and its own store entry, to the reply |
| Widget.OnWeatherError | src/components/Weather/Weather.jsx:42-44 | a weather failure sets only the error, to its own message |
| Widget.OnAddressLoaded | src/components/Weather/Weather.jsx:50-53 | an address success sets only its own cell and its own store entry, to the reply |
| Widget.OnAddressError | src/components/Weather/Weather.jsx:54-56 | an address failure sets only the error, to its own message |
| Widget.OnToggle | src/components/Weather/Weather.jsx:152 | a button click flips the picker and changes nothing else |
| Widget.OnMouseDown | src/components/Weather/Weather.jsx:87-90 | a mousedown outside an open picker closes it; in every other case (inside, picker closed, no listener yet) nothing changes; no mousedown touches any other cell |
| Widget.OnColourPicked | src/components/Weather/Weather.jsx:165 | a completed choice sets the background and, through the effect on lines 102-105, the text colour to its contrast, and nothing else |
| Widget.ApplyError | src/components/Weather/Weather.jsx:43 | each event either leaves the error cell alone or overwrites it with its own message |
| Widget.LastFailureWins | src/components/Weather/Weather.jsx:38-78 | after any event sequence the error is the message of the last failure in it, or the earlier error if none failed; successes never clear it |
| Widget.InitialInv | src/components/Weather/Weather.jsx:19-24 | the first render satisfies the invariant |
| Widget.ApplyPreservesInv | src/components/Weather/Weather.jsx:27-105 | every enabled event preserves the invariant |
| Widget.RunPreservesInv | src/components/Weather/Weather.jsx:27-105 | every feasible event sequence preserves the invariant |
| Widget.MountIsPermanent | src/components/Weather/Weather.jsx:83 | the mount effects run once, and nothing undoes them |
| Widget.InitialTextColourIsStale | src/components/Weather/Weather.jsx:22-24 | the initial text colour `#FFFFFF` differs from the contrast of the default background |
| Widget.TextColourFollowsBackground | src/components/Weather/Weather.jsx:102-105 | once the mount effects have run, every later state's text colour is the contrast of its background |
| Widget.OutcomeKeepsOtherEnabled | src/components/Weather/Weather.jsx:71-72 | one fetch's outcome leaves the other fetch's request open |
| Widget.FetchOutcomesCommute | src/components/Weather/Weather.jsx:38-56 | the weather and address outcomes give the same state in either order unless both are failures |
| Widget.BothFailuresLastWins | src/components/Weather/Weather.jsx:42-56 | when both fetches fail, the two orders differ only in the error cell, which holds the later message |
| Widget.ToggleTwice | src/components/Weather/Weather.jsx:152 | two clicks on the button restore the state |
| Widget.ButtonPressWhileOpenReopens | src/components/Weather/Weather.jsx:87-90 | on the open picker, the button's mousedown closes it and the click that follows (line 152) restores the state before the press |
| View.FirstTruthy | src/components/Weather/Weather.jsx:131 | the result is empty exactly when no entry is truthy, and otherwise the first truthy entry |
| View.PlaceName | src/components/Weather/Weather.jsx:131 | the place name is empty exactly when none of `city`, `town`, `village` is truthy, and otherwise one of them |
| View.PlaceNameIsFirstTruthy | src/components/Weather/Weather.jsx:131 | the place name is the first truthy of `city`, `town`, `village` |
| View.Render | src/components/Weather/Weather.jsx:122-149 | the banner shows the error when there is one; the card shows exactly when both data cells are set, with the place name, the icon, the temperature, humidity and wind speed, and the text colour; the loading text shows exactly when neither card nor error shows |
| View.ReachableViewsAreExclusive | src/components/Weather/Weather.jsx:127-148 | in every reachable state exactly one of banner, card and loading text shows |
| View.BannerAndCardNeedUnreachableState | src/components/Weather/Weather.jsx:127-128 | the guards alone would show banner and card together, but only in a state that breaks the invariant |
| View.CacheHitShowsCachedCard | src/components/Weather/Weather.jsx:64-69 | with both entries stored, mount and a position fix show the cached values with no fetch open |
| View.CacheMissIssuesBothFetches | src/components/Weather/Weather.jsx:70-73 | with either entry missing, the position fix issues both fetches |
| View.BothSuccessesInEitherOrder | src/components/Weather/Weather.jsx:38-56 | on a cache miss, both successes in either order give the same state, store both replies and show the card |
| View.WeatherFailureKeepsAddress | src/components/Weather/Weather.jsx:38-56 | a weather failure beside an address success shows the weather message and no card, while the address stays in state and store |
| Component.WeatherWidget.constructor | src/components/Weather/Weather.jsx:18-24 | the fields start as the initial state over the given store |
| Component.WeatherWidget.Mount | src/components/Weather/Weather.jsx:59-105 | updates the fields as `Widget.OnMount` and keeps the invariant |
| Component.WeatherWidget.OnPositionError | src/components/Weather/Weather.jsx:75 | updates the fields as `Widget.OnPositionError` and keeps the invariant |
| Component.WeatherWidget.OnPosition | src/components/Weather/Weather.jsx:62-73 | updates the fields as `Widget.OnPosition` and keeps the invariant |
| Component.WeatherWidget.OnWeatherLoaded | src/components/Weather/Weather.jsx:38-41 | updates the fields as `Widget.OnWeatherLoaded` and keeps the invariant |
| Component.WeatherWidget.OnWeatherError | src/components/Weather/Weather.jsx:42-44 | updates the fields as `Widget.OnWeatherError` and keeps the invariant |
| Component.WeatherWidget.OnAddressLoaded | src/components/Weather/Weather.jsx:50-53 | updates the fields as `Widget.OnAddressLoaded` and keeps the invariant |
| Component.WeatherWidget.OnAddressError | src/components/Weather/Weather.jsx:54-56 | updates the fields as `Widget.OnAddressError` and keeps the invariant |
| Component.WeatherWidget.OnToggleClick | src/components/Weather/Weather.jsx:152 | updates the fields as `Widget.OnToggle` and keeps the invariant |
| Component.WeatherWidget.OnMouseDown | src/components/Weather/Weather.jsx:87-91 | updates the fields as `Widget.OnMouseDown` and keeps the invariant |
| Component.WeatherWidget.OnChangeComplete | src/components/Weather/Weather.jsx:165 | updates the fields as `Widget.OnColourPicked` (the choice and the effect on lines 102-105) and keeps the invariant |
| Component.CachedSession | src/components/Weather/Weather.jsx:64-69 | using only the class's contracts: on a warm store, mount and a position fix leave the cached values in the cells, no fetch open and black text |

## Left out

- Network calls (the weather API and the reverse geocoder, lines 28-57): their URLs, headers, the API key on line 33 and the coordinates are left out. Each fetch is an opaque success (carrying its reply) or failure event.
- The geolocation API (lines 60-79): it becomes three events, unsupported (a parameter of mount), failed, and a position fix. The coordinates only feed the URLs and are not modelled.
- `localStorage`, `JSON.stringify` and `JSON.parse`: the store is two optional entries, and a stored value is assumed to read back unchanged. An absent `address` in a reply (stored as the text `undefined`, which `JSON.parse` would reject when read back) is not modelled. Each reply is a value.
- The clock (line 108): the hour is a parameter in 0..23.
- React itself: rendering, JSX, Tailwind classes, `React.memo`, the `ChromePicker` library, DOM `contains`, and adding and removing the listener (lines 94-99). A mousedown is classified as inside or outside the picker, and the listener counts as present from mount on. Unmounting is not modelled.
- Asynchrony: the two fetch outcomes are events that may arrive in any order. Feasibility only requires each to follow its own request. Passive effects are assumed to run before the next event, so a colour choice and its contrast effect are one step.
- Contrast.CalculateContrast: the luminance is exact, not IEEE double arithmetic. Exact luminances are multiples of 0.0001, so doubles could in principle disagree only at the exact value 128.
- Contrast.CalculateContrast: malformed input and `parseInt`'s lenient handling of a bad prefix or `NaN` are excluded. The precondition asks for hexadecimal digits at positions 1 to 6.
- Widget.OnColourPicked: the model assumes the colour library (not part of this model) reports a six-digit `#rrggbb` value on line 165. A non-hexadecimal value such as `transparent` is excluded by the precondition. The source would store it as the background and, through the `NaN` comparisons, pick `#FFFFFF` as the text colour.
- Widget.OnWeatherLoaded, Widget.OnAddressLoaded: the store is modelled as never failing. In the source, `localStorage.setItem` (lines 41 and 53) is inside the `try`. If it throws (quota exceeded, storage disabled), the success has already set its cell, and the `catch` then sets the failure message as well. With both replies in, banner and card would then show together. View.ReachableViewsAreExclusive and the invariant Widget.Inv rely on this assumption.
- Widget.OnPosition: `localStorage.getItem` (lines 64-65) is modelled as never throwing. If it threw, the position callback would end with no fetch and no error, and the widget would show the loading text for good.
- Icon.WeatherIcon: the temperature is a real number. A missing or `NaN` temperature, which would fail every comparison and fall into the last branch, is not modelled.
- View.PlaceName: address fields are optional strings. A field that is neither a string nor absent is not modelled. When none is truthy, the empty text stands for the falsy value that renders as nothing.
