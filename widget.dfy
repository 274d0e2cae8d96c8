/**
 * The weather widget's state and the effect of every event on it, as pure
 * transitions over a value of the whole state. The class in module
 * Component updates the same cells in place and is specified by these
 * functions.
 *
 * The events are the mount effects, the geolocation callbacks, the two
 * fetch outcomes, the picker button, a mousedown anywhere in the document
 * and a completed colour choice. The two fetch outcomes may arrive in
 * either order.
 */
module Widget {
  import opened Options
  import Contrast

  /** The weather API's reply: temperature in Celsius, humidity in percent, wind in m/s. */
  datatype WeatherSnapshot = WeatherSnapshot(temp: real, humidity: real, windSpeed: real)

  /** The reverse-geocoding reply's `address`; `None` is an absent field. */
  datatype Address = Address(city: Option<string>, town: Option<string>, village: Option<string>)

  /** The persistent store under its two keys `weatherData` and `location`. */
  datatype Store = Store(weather: Option<WeatherSnapshot>, location: Option<Address>)

  const DefaultBackground: Contrast.HexColour := "#4A90E2"
  const DefaultText: string := "#FFFFFF"

  const UnsupportedMessage: string := "Geolocation is not supported by this browser."
  const PositionFailedMessage: string := "Failed to get location"
  const WeatherFailedMessage: string := "Failed to fetch weather data"
  const AddressFailedMessage: string := "Failed to fetch location name"

  /** Where a mousedown lands: inside the open picker, or anywhere else. */
  datatype Target = InsidePicker | Outside

  /**
   * The six state cells, the store, and the model's record of which
   * callbacks are still to come: `mounted` once the mount effects ran,
   * `awaitingPosition` while the position request is open, and one flag
   * per fetch in flight.
   */
  datatype State = State(
    weatherData: Option<WeatherSnapshot>,
    location: Option<Address>,
    error: Option<string>,
    bgColor: Contrast.HexColour,
    textColor: string,
    showPicker: bool,
    store: Store,
    mounted: bool,
    awaitingPosition: bool,
    weatherInFlight: bool,
    locationInFlight: bool)

  /** The cells an event can write, with one cell per bookkeeping flag. */
  datatype Cell =
    | WeatherDataCell | LocationCell | ErrorCell | BgColorCell | TextColorCell | ShowPickerCell
    | CachedWeather | CachedLocation
    | MountedFlag | PositionRequest | WeatherRequest | LocationRequest

  /** The cells in which two states differ. */
  function Changed(s: State, t: State): set<Cell> {
    (if s.weatherData != t.weatherData then {WeatherDataCell} else {})
    + (if s.location != t.location then {LocationCell} else {})
    + (if s.error != t.error then {ErrorCell} else {})
    + (if s.bgColor != t.bgColor then {BgColorCell} else {})
    + (if s.textColor != t.textColor then {TextColorCell} else {})
    + (if s.showPicker != t.showPicker then {ShowPickerCell} else {})
    + (if s.store.weather != t.store.weather then {CachedWeather} else {})
    + (if s.store.location != t.store.location then {CachedLocation} else {})
    + (if s.mounted != t.mounted then {MountedFlag} else {})
    + (if s.awaitingPosition != t.awaitingPosition then {PositionRequest} else {})
    + (if s.weatherInFlight != t.weatherInFlight then {WeatherRequest} else {})
    + (if s.locationInFlight != t.locationInFlight then {LocationRequest} else {})
  }

  lemma ChangedIsEmptyOnlyForEqual(s: State, t: State)
    ensures Changed(s, t) == {} <==> s == t
  {
    if Changed(s, t) == {} {
      assert WeatherDataCell !in Changed(s, t) && LocationCell !in Changed(s, t);
      assert ErrorCell !in Changed(s, t) && BgColorCell !in Changed(s, t);
      assert TextColorCell !in Changed(s, t) && ShowPickerCell !in Changed(s, t);
      assert CachedWeather !in Changed(s, t) && CachedLocation !in Changed(s, t);
      assert MountedFlag !in Changed(s, t) && PositionRequest !in Changed(s, t);
      assert WeatherRequest !in Changed(s, t) && LocationRequest !in Changed(s, t);
      assert s.store == t.store;
    }
  }

  /** The first render: every `useState` initial value, over the store as found. */
  function Initial(store: Store): (s: State)
    ensures s.bgColor == DefaultBackground && s.textColor == DefaultText
    ensures s.weatherData.None? && s.location.None? && s.error.None? && !s.showPicker
    ensures s.store == store && !s.mounted
  {
    State(None, None, None, DefaultBackground, DefaultText, false, store, false, false, false, false)
  }

  /**
   * The mount effects, in order: `getLocation` (which either opens the
   * position request or reports that geolocation is unsupported),
   * registering the mousedown listener, and the contrast effect.
   */
  function OnMount(s: State, geolocationSupported: bool): (t: State)
    requires !s.mounted
    ensures t.mounted && t.textColor == Contrast.CalculateContrast(t.bgColor)
    ensures t.awaitingPosition == geolocationSupported
    ensures t.error == if geolocationSupported then s.error else Some(UnsupportedMessage)
    ensures Changed(s, t) <= {ErrorCell, TextColorCell, MountedFlag, PositionRequest}
  {
    s.(mounted := true,
       awaitingPosition := geolocationSupported,
       error := if geolocationSupported then s.error else Some(UnsupportedMessage),
       textColor := Contrast.CalculateContrast(s.bgColor))
  }

  /** The position request's error callback. */
  function OnPositionError(s: State): (t: State)
    requires s.awaitingPosition
    ensures t.error == Some(PositionFailedMessage) && !t.awaitingPosition
    ensures Changed(s, t) <= {ErrorCell, PositionRequest}
  {
    s.(awaitingPosition := false, error := Some(PositionFailedMessage))
  }

  /**
   * A position fix: with both store entries present the widget loads them
   * and issues no fetch; otherwise it issues both fetches. The fetches are
   * issued only here, so none is in flight before.
   */
  function OnPosition(s: State): (t: State)
    requires s.awaitingPosition && !s.weatherInFlight && !s.locationInFlight
    ensures !t.awaitingPosition
    ensures t.weatherInFlight == t.locationInFlight
    ensures !t.weatherInFlight <==> s.store.weather.Some? && s.store.location.Some?
    ensures !t.weatherInFlight ==> t.weatherData == s.store.weather && t.location == s.store.location
    ensures t.weatherInFlight ==> t.weatherData == s.weatherData && t.location == s.location
    ensures Changed(s, t) <= {WeatherDataCell, LocationCell, PositionRequest, WeatherRequest, LocationRequest}
  {
    var hit := s.store.weather.Some? && s.store.location.Some?;
    if hit then
      s.(awaitingPosition := false, weatherData := s.store.weather, location := s.store.location)
    else
      s.(awaitingPosition := false, weatherInFlight := true, locationInFlight := true)
  }

  /** The weather fetch succeeded: its own cell and its own store entry. */
  function OnWeatherLoaded(s: State, w: WeatherSnapshot): (t: State)
    requires s.weatherInFlight
    ensures t.weatherData == Some(w) && t.store.weather == Some(w) && !t.weatherInFlight
    ensures Changed(s, t) <= {WeatherDataCell, CachedWeather, WeatherRequest}
  {
    s.(weatherData := Some(w), store := s.store.(weather := Some(w)), weatherInFlight := false)
  }

  /** The weather fetch failed: only the error cell. */
  function OnWeatherError(s: State): (t: State)
    requires s.weatherInFlight
    ensures t.error == Some(WeatherFailedMessage) && !t.weatherInFlight
    ensures Changed(s, t) <= {ErrorCell, WeatherRequest}
  {
    s.(error := Some(WeatherFailedMessage), weatherInFlight := false)
  }

  /** The reverse-geocoding fetch succeeded: its own cell and its own store entry. */
  function OnAddressLoaded(s: State, a: Address): (t: State)
    requires s.locationInFlight
    ensures t.location == Some(a) && t.store.location == Some(a) && !t.locationInFlight
    ensures Changed(s, t) <= {LocationCell, CachedLocation, LocationRequest}
  {
    s.(location := Some(a), store := s.store.(location := Some(a)), locationInFlight := false)
  }

  /** The reverse-geocoding fetch failed: only the error cell. */
  function OnAddressError(s: State): (t: State)
    requires s.locationInFlight
    ensures t.error == Some(AddressFailedMessage) && !t.locationInFlight
    ensures Changed(s, t) <= {ErrorCell, LocationRequest}
  {
    s.(error := Some(AddressFailedMessage), locationInFlight := false)
  }

  /** The picker button's click. */
  function OnToggle(s: State): (t: State)
    ensures t.showPicker != s.showPicker
    ensures Changed(s, t) == {ShowPickerCell}
  {
    s.(showPicker := !s.showPicker)
  }

  /**
   * The document's mousedown listener, registered at mount. The picker's
   * element exists only while it is shown; a press outside it closes it.
   */
  function OnMouseDown(s: State, target: Target): (t: State)
    ensures s.mounted && s.showPicker && target == Outside ==> !t.showPicker
    ensures !(s.mounted && s.showPicker && target == Outside) ==> t == s
    ensures Changed(s, t) <= {ShowPickerCell}
  {
    if s.mounted && s.showPicker && target == Outside then s.(showPicker := false) else s
  }

  /**
   * A completed choice in the picker, followed by the contrast effect that
   * the new background triggers.
   */
  function OnColourPicked(s: State, hex: string): (t: State)
    requires s.showPicker && Contrast.Decodable(hex)
    ensures t.bgColor == hex && t.textColor == Contrast.CalculateContrast(hex)
    ensures Changed(s, t) <= {BgColorCell, TextColorCell}
  {
    s.(bgColor := hex, textColor := Contrast.CalculateContrast(hex))
  }

  datatype Event =
    | Mounted(geolocationSupported: bool)
    | PositionError
    | PositionFix
    | WeatherLoaded(snapshot: WeatherSnapshot)
    | WeatherError
    | AddressLoaded(address: Address)
    | AddressError
    | PickerToggled
    | MouseDown(target: Target)
    | ColourPicked(hex: string)

  /** Whether the event can be delivered in this state. */
  predicate Enabled(s: State, e: Event) {
    match e
    case Mounted(_) => !s.mounted
    case PositionError => s.awaitingPosition
    case PositionFix => s.awaitingPosition && !s.weatherInFlight && !s.locationInFlight
    case WeatherLoaded(_) | WeatherError => s.weatherInFlight
    case AddressLoaded(_) | AddressError => s.locationInFlight
    case PickerToggled | MouseDown(_) => true
    case ColourPicked(hex) => s.showPicker && Contrast.Decodable(hex)
  }

  function Apply(s: State, e: Event): State
    requires Enabled(s, e)
  {
    match e
    case Mounted(supported) => OnMount(s, supported)
    case PositionError => OnPositionError(s)
    case PositionFix => OnPosition(s)
    case WeatherLoaded(w) => OnWeatherLoaded(s, w)
    case WeatherError => OnWeatherError(s)
    case AddressLoaded(a) => OnAddressLoaded(s, a)
    case AddressError => OnAddressError(s)
    case PickerToggled => OnToggle(s)
    case MouseDown(target) => OnMouseDown(s, target)
    case ColourPicked(hex) => OnColourPicked(s, hex)
  }

  /** Every event of the sequence is enabled when it arrives. */
  predicate Feasible(s: State, es: seq<Event>)
    decreases |es|
  {
    es == [] || (Enabled(s, es[0]) && Feasible(Apply(s, es[0]), es[1..]))
  }

  function Run(s: State, es: seq<Event>): State
    requires Feasible(s, es)
    decreases |es|
  {
    if es == [] then s else Run(Apply(s, es[0]), es[1..])
  }

  /** The message an event writes to the error cell, if any. */
  function ErrorOf(e: Event): Option<string> {
    match e
    case Mounted(supported) => if supported then None else Some(UnsupportedMessage)
    case PositionError => Some(PositionFailedMessage)
    case WeatherError => Some(WeatherFailedMessage)
    case AddressError => Some(AddressFailedMessage)
    case _ => None
  }

  /** The message of the last error-writing event of the sequence. */
  function LastError(es: seq<Event>): Option<string>
    decreases |es|
  {
    if es == [] then None
    else if LastError(es[1..]).Some? then LastError(es[1..])
    else ErrorOf(es[0])
  }

  /** One event leaves the error cell alone or overwrites it with its own message. */
  lemma ApplyError(s: State, e: Event)
    requires Enabled(s, e)
    ensures Apply(s, e).error == if ErrorOf(e).Some? then ErrorOf(e) else s.error
  {
  }

  /**
   * The last failure to arrive wins: the error cell holds the message of the
   * last error-writing event, and no success ever clears it.
   */
  lemma {:induction false} LastFailureWins(s: State, es: seq<Event>)
    requires Feasible(s, es)
    ensures Run(s, es).error == if LastError(es).Some? then LastError(es) else s.error
    decreases |es|
  {
    if es != [] {
      ApplyError(s, es[0]);
      LastFailureWins(Apply(s, es[0]), es[1..]);
    }
  }

  /**
   * The invariant of every reachable state. Before mount nothing has been
   * requested; once mounted the text colour is the contrast of the
   * background; a fetch in flight has not filled its cell; an error implies
   * one of the two cells is empty for good; and what is shown is stored.
   */
  predicate Inv(s: State) {
    (!s.mounted ==>
      !s.awaitingPosition && !s.weatherInFlight && !s.locationInFlight
      && s.error.None? && s.weatherData.None? && s.location.None?)
    && (s.mounted ==> s.textColor == Contrast.CalculateContrast(s.bgColor))
    && (s.awaitingPosition ==>
      !s.weatherInFlight && !s.locationInFlight
      && s.error.None? && s.weatherData.None? && s.location.None?)
    && (s.weatherInFlight ==> s.weatherData.None?)
    && (s.locationInFlight ==> s.location.None?)
    && (s.error.Some? ==>
      (s.weatherData.None? && !s.weatherInFlight) || (s.location.None? && !s.locationInFlight))
    && (s.weatherData.Some? ==> s.store.weather == s.weatherData)
    && (s.location.Some? ==> s.store.location == s.location)
  }

  lemma InitialInv(store: Store)
    ensures Inv(Initial(store))
  {
  }

  lemma ApplyPreservesInv(s: State, e: Event)
    requires Inv(s) && Enabled(s, e)
    ensures Inv(Apply(s, e))
  {
  }

  lemma {:induction false} RunPreservesInv(s: State, es: seq<Event>)
    requires Inv(s) && Feasible(s, es)
    ensures Inv(Run(s, es))
    decreases |es|
  {
    if es != [] {
      ApplyPreservesInv(s, es[0]);
      RunPreservesInv(Apply(s, es[0]), es[1..]);
    }
  }

  /** The initial text colour is white although the default background calls for black. */
  lemma InitialTextColourIsStale(store: Store)
    ensures Initial(store).textColor != Contrast.CalculateContrast(Initial(store).bgColor)
  {
    Contrast.DefaultBackgroundIsLight();
  }

  /** No event undoes the mount. */
  lemma {:induction false} MountIsPermanent(s: State, es: seq<Event>)
    requires s.mounted && Feasible(s, es)
    ensures Run(s, es).mounted
    decreases |es|
  {
    if es != [] {
      MountIsPermanent(Apply(s, es[0]), es[1..]);
    }
  }

  /**
   * Once the mount effects have run, every later state shows the contrast
   * of its background, whatever colours were picked.
   */
  lemma TextColourFollowsBackground(store: Store, es: seq<Event>)
    requires Feasible(Initial(store), es) && es != [] && es[0].Mounted?
    ensures Run(Initial(store), es).textColor == Contrast.CalculateContrast(Run(Initial(store), es).bgColor)
  {
    var s1 := Apply(Initial(store), es[0]);
    InitialInv(store);
    ApplyPreservesInv(Initial(store), es[0]);
    RunPreservesInv(s1, es[1..]);
    MountIsPermanent(s1, es[1..]);
    assert Run(Initial(store), es) == Run(s1, es[1..]);
  }

  predicate IsWeatherOutcome(e: Event) {
    e.WeatherLoaded? || e.WeatherError?
  }

  predicate IsAddressOutcome(e: Event) {
    e.AddressLoaded? || e.AddressError?
  }

  /** A fetch outcome leaves the other fetch's request open. */
  lemma OutcomeKeepsOtherEnabled(s: State, ew: Event, ea: Event)
    requires IsWeatherOutcome(ew) && IsAddressOutcome(ea)
    requires Enabled(s, ew) && Enabled(s, ea)
    ensures Enabled(Apply(s, ew), ea) && Enabled(Apply(s, ea), ew)
  {
  }

  /**
   * The two fetch outcomes commute unless both are failures, since each
   * writes only its own cells.
   */
  lemma FetchOutcomesCommute(s: State, ew: Event, ea: Event)
    requires IsWeatherOutcome(ew) && IsAddressOutcome(ea)
    requires Enabled(s, ew) && Enabled(s, ea)
    requires !(ew.WeatherError? && ea.AddressError?)
    ensures Enabled(Apply(s, ew), ea) && Enabled(Apply(s, ea), ew)
    ensures Apply(Apply(s, ew), ea) == Apply(Apply(s, ea), ew)
  {
    OutcomeKeepsOtherEnabled(s, ew, ea);
  }

  /** When both fetches fail the two orders differ only in the message, and the later one is shown. */
  lemma BothFailuresLastWins(s: State)
    requires s.weatherInFlight && s.locationInFlight
    ensures OnAddressError(OnWeatherError(s)).error == Some(AddressFailedMessage)
    ensures OnWeatherError(OnAddressError(s)).error == Some(WeatherFailedMessage)
    ensures Changed(OnAddressError(OnWeatherError(s)), OnWeatherError(OnAddressError(s))) == {ErrorCell}
  {
  }

  /** Two toggles restore the picker. */
  lemma ToggleTwice(s: State)
    ensures OnToggle(OnToggle(s)) == s
  {
  }

  /**
   * Pressing the picker button while the picker is open: the mousedown lands
   * outside the picker and closes it, and the click that follows opens it
   * again.
   */
  lemma ButtonPressWhileOpenReopens(s: State)
    requires s.mounted && s.showPicker
    ensures !OnMouseDown(s, Outside).showPicker
    ensures OnToggle(OnMouseDown(s, Outside)) == s
  {
  }
}
