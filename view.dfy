/**
 * What the widget renders for a state: the error banner, the weather card
 * or the loading text, and the place name shown on the card.
 */
module View {
  import opened Options
  import Contrast
  import Icon
  import Widget

  /** A field of the address is truthy when present and not empty. */
  predicate Truthy(field: Option<string>) {
    field.Some? && field.value != ""
  }

  /**
   * Reference definition of a chain of `||`: the first truthy entry, or the
   * empty text when there is none.
   */
  function FirstTruthy(fields: seq<Option<string>>): (r: string)
    ensures r == "" <==> forall i | 0 <= i < |fields| :: !Truthy(fields[i])
    ensures r != "" ==> exists i | 0 <= i < |fields| ::
      fields[i] == Some(r) && forall j | 0 <= j < i :: !Truthy(fields[j])
    decreases |fields|
  {
    if fields == [] then ""
    else if Truthy(fields[0]) then fields[0].value
    else
      var r := FirstTruthy(fields[1..]);
      assert forall i | 1 <= i < |fields| :: fields[i] == fields[1..][i - 1];
      r
  }

  /**
   * `city || town || village`. When none is truthy the expression yields a
   * falsy value, which renders as nothing; the empty text stands for it.
   */
  function PlaceName(a: Widget.Address): (r: string)
    ensures r == "" <==> !Truthy(a.city) && !Truthy(a.town) && !Truthy(a.village)
    ensures r != "" ==> Some(r) in [a.city, a.town, a.village]
  {
    if Truthy(a.city) then a.city.value
    else if Truthy(a.town) then a.town.value
    else if Truthy(a.village) then a.village.value
    else ""
  }

  lemma PlaceNameIsFirstTruthy(a: Widget.Address)
    ensures PlaceName(a) == FirstTruthy([a.city, a.town, a.village])
  {
    var fs := [a.city, a.town, a.village];
    assert fs[1..] == [a.town, a.village];
    assert [a.town, a.village][1..] == [a.village];
    assert [a.village][1..] == [];
    assert FirstTruthy([a.village]) == if Truthy(a.village) then a.village.value else "";
    assert FirstTruthy([a.town, a.village]) ==
      if Truthy(a.town) then a.town.value else FirstTruthy([a.village]);
  }

  /** The weather card: place, glyph, the three readings, in the text colour. */
  datatype Card = Card(
    place: string,
    icon: Icon.Glyph,
    temp: real,
    humidity: real,
    windSpeed: real,
    foreground: string)

  /**
   * The whole rendering: the background, the banner if any, the card if
   * any, whether the loading text shows, and whether the picker shows
   * (with the current colour).
   */
  datatype Rendering = Rendering(
    background: string,
    banner: Option<string>,
    card: Option<Card>,
    loading: bool,
    picker: bool)

  /** The component's render, with the clock's hour passed in for the icon. */
  function Render(s: Widget.State, hour: int): (v: Rendering)
    requires 0 <= hour < 24
    ensures v.banner == s.error
    ensures v.card.Some? <==> s.weatherData.Some? && s.location.Some?
    ensures v.loading <==> v.card.None? && s.error.None?
    ensures v.card.Some? ==>
      v.card.value.place == PlaceName(s.location.value)
      && v.card.value.icon == Icon.WeatherIcon(s.weatherData.value.temp, hour)
      && v.card.value.temp == s.weatherData.value.temp
      && v.card.value.humidity == s.weatherData.value.humidity
      && v.card.value.windSpeed == s.weatherData.value.windSpeed
      && v.card.value.foreground == s.textColor
    ensures v.background == s.bgColor && v.picker == s.showPicker
  {
    var card :=
      if s.weatherData.Some? && s.location.Some? then
        var w := s.weatherData.value;
        Some(Card(PlaceName(s.location.value), Icon.WeatherIcon(w.temp, hour),
                  w.temp, w.humidity, w.windSpeed, s.textColor))
      else None;
    Rendering(s.bgColor, s.error, card, card.None? && s.error.None?, s.showPicker)
  }

  /** Exactly one of banner, card and loading text shows. */
  predicate ExactlyOneView(v: Rendering) {
    (v.banner.Some? && v.card.None? && !v.loading)
    || (v.banner.None? && v.card.Some? && !v.loading)
    || (v.banner.None? && v.card.None? && v.loading)
  }

  /**
   * The render's guards would allow banner and card together; in a reachable
   * state they never coincide, so exactly one view shows.
   */
  lemma ReachableViewsAreExclusive(store: Widget.Store, es: seq<Widget.Event>, hour: int)
    requires 0 <= hour < 24 && Widget.Feasible(Widget.Initial(store), es)
    ensures ExactlyOneView(Render(Widget.Run(Widget.Initial(store), es), hour))
  {
    Widget.InitialInv(store);
    Widget.RunPreservesInv(Widget.Initial(store), es);
  }

  /** A state where the banner and the card would both show, allowed by the render's guards alone. */
  lemma BannerAndCardNeedUnreachableState(w: Widget.WeatherSnapshot, a: Widget.Address, hour: int)
    requires 0 <= hour < 24
    ensures var s := Widget.Initial(Widget.Store(Some(w), Some(a))).(
              mounted := true, weatherData := Some(w), location := Some(a),
              error := Some(Widget.WeatherFailedMessage),
              textColor := Contrast.CalculateContrast(Widget.DefaultBackground));
            !Widget.Inv(s) && Render(s, hour).banner.Some? && Render(s, hour).card.Some?
  {
  }

  /** Cache hit: after mount and a position fix the cached values are shown and no fetch is open. */
  lemma CacheHitShowsCachedCard(w: Widget.WeatherSnapshot, a: Widget.Address, hour: int)
    requires 0 <= hour < 24
    ensures var store := Widget.Store(Some(w), Some(a));
            var es := [Widget.Mounted(true), Widget.PositionFix];
            Widget.Feasible(Widget.Initial(store), es)
            && var s := Widget.Run(Widget.Initial(store), es);
            !s.weatherInFlight && !s.locationInFlight
            && Render(s, hour).card == Some(Card(PlaceName(a), Icon.WeatherIcon(w.temp, hour),
                                               w.temp, w.humidity, w.windSpeed, Contrast.Black))
  {
    var store := Widget.Store(Some(w), Some(a));
    Contrast.DefaultBackgroundIsLight();
    var s1 := Widget.Apply(Widget.Initial(store), Widget.Mounted(true));
    var s2 := Widget.Apply(s1, Widget.PositionFix);
    assert Widget.Run(s2, []) == s2;
    assert Widget.Run(Widget.Initial(store), [Widget.Mounted(true), Widget.PositionFix]) == s2 by {
      assert [Widget.Mounted(true), Widget.PositionFix][1..] == [Widget.PositionFix];
      assert [Widget.PositionFix][1..] == [];
    }
  }

  /** Cache miss: with either entry missing, both fetches are issued after the fix. */
  lemma CacheMissIssuesBothFetches(store: Widget.Store)
    requires store.weather.None? || store.location.None?
    ensures var s := Widget.OnPosition(Widget.OnMount(Widget.Initial(store), true));
            s.weatherInFlight && s.locationInFlight && s.weatherData.None? && s.location.None?
  {
  }

  /**
   * Cache miss with both fetches succeeding, in either order: the same final
   * state, holding both results in state and store, with the card shown.
   */
  lemma BothSuccessesInEitherOrder(store: Widget.Store, w: Widget.WeatherSnapshot, a: Widget.Address, hour: int)
    requires 0 <= hour < 24
    requires store.weather.None? || store.location.None?
    ensures var s := Widget.OnPosition(Widget.OnMount(Widget.Initial(store), true));
            var t := Widget.OnAddressLoaded(Widget.OnWeatherLoaded(s, w), a);
            t == Widget.OnWeatherLoaded(Widget.OnAddressLoaded(s, a), w)
            && t.store == Widget.Store(Some(w), Some(a))
            && Render(t, hour).card.Some? && Render(t, hour).banner.None?
  {
    var s := Widget.OnPosition(Widget.OnMount(Widget.Initial(store), true));
    Widget.FetchOutcomesCommute(s, Widget.WeatherLoaded(w), Widget.AddressLoaded(a));
  }

  /**
   * Partial failure: the weather fetch fails while the address arrives. The
   * banner shows the weather message, the address is still held in state
   * and store, and no card shows.
   */
  lemma WeatherFailureKeepsAddress(store: Widget.Store, a: Widget.Address, hour: int)
    requires 0 <= hour < 24
    requires store.weather.None? || store.location.None?
    ensures var s := Widget.OnPosition(Widget.OnMount(Widget.Initial(store), true));
            var t := Widget.OnAddressLoaded(Widget.OnWeatherError(s), a);
            t == Widget.OnWeatherError(Widget.OnAddressLoaded(s, a))
            && t.location == Some(a) && t.store.location == Some(a)
            && Render(t, hour).banner == Some(Widget.WeatherFailedMessage)
            && Render(t, hour).card.None? && !Render(t, hour).loading
  {
    var s := Widget.OnPosition(Widget.OnMount(Widget.Initial(store), true));
    Widget.FetchOutcomesCommute(s, Widget.WeatherError, Widget.AddressLoaded(a));
  }
}
