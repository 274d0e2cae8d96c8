/**
 * The `Weather` component as an object whose cells the event handlers
 * update in place. Each method is one handler; its effect on the cells is
 * the matching transition of module Widget, and every method keeps the
 * invariant Widget.Inv.
 */
module Component {
  import opened Options
  import Contrast
  import Widget

  class WeatherWidget {
    var weatherData: Option<Widget.WeatherSnapshot>
    var location: Option<Widget.Address>
    var error: Option<string>
    var bgColor: Contrast.HexColour
    var textColor: string
    var showPicker: bool
    /** The persistent store, which outlives the component. */
    var store: Widget.Store
    var mounted: bool
    var awaitingPosition: bool
    var weatherInFlight: bool
    var locationInFlight: bool

    /** The cells as one value. */
    function Snapshot(): Widget.State
      reads this
    {
      Widget.State(weatherData, location, error, bgColor, textColor, showPicker, store,
                   mounted, awaitingPosition, weatherInFlight, locationInFlight)
    }

    ghost predicate Valid()
      reads this
    {
      Widget.Inv(Snapshot())
    }

    /** The first render over the store as found. */
    constructor (initialStore: Widget.Store)
      ensures Snapshot() == Widget.Initial(initialStore) && Valid()
    {
      weatherData, location, error := None, None, None;
      bgColor, textColor, showPicker := Widget.DefaultBackground, Widget.DefaultText, false;
      store := initialStore;
      mounted, awaitingPosition, weatherInFlight, locationInFlight := false, false, false, false;
      new;
      Widget.InitialInv(initialStore);
    }

    /** The mount effects: `getLocation`, the listener, the contrast effect. */
    method Mount(geolocationSupported: bool)
      requires Valid() && !mounted
      modifies this
      ensures Snapshot() == Widget.OnMount(old(Snapshot()), geolocationSupported) && Valid()
    {
      ghost var before := Snapshot();
      mounted := true;
      if geolocationSupported {
        awaitingPosition := true;
      } else {
        error := Some(Widget.UnsupportedMessage);
      }
      textColor := Contrast.CalculateContrast(bgColor);
      Widget.ApplyPreservesInv(before, Widget.Mounted(geolocationSupported));
    }

    method OnPositionError()
      requires Valid() && awaitingPosition
      modifies this
      ensures Snapshot() == Widget.OnPositionError(old(Snapshot())) && Valid()
    {
      ghost var before := Snapshot();
      awaitingPosition := false;
      error := Some(Widget.PositionFailedMessage);
      Widget.ApplyPreservesInv(before, Widget.PositionError);
    }

    /** The position callback: read both store entries, then load them or fetch. */
    method OnPosition()
      requires Valid() && awaitingPosition
      modifies this
      ensures Snapshot() == Widget.OnPosition(old(Snapshot())) && Valid()
    {
      ghost var before := Snapshot();
      awaitingPosition := false;
      var cachedWeather, cachedLocation := store.weather, store.location;
      if cachedWeather.Some? && cachedLocation.Some? {
        weatherData := cachedWeather;
        location := cachedLocation;
      } else {
        weatherInFlight := true;
        locationInFlight := true;
      }
      Widget.ApplyPreservesInv(before, Widget.PositionFix);
    }

    method OnWeatherLoaded(w: Widget.WeatherSnapshot)
      requires Valid() && weatherInFlight
      modifies this
      ensures Snapshot() == Widget.OnWeatherLoaded(old(Snapshot()), w) && Valid()
    {
      ghost var before := Snapshot();
      weatherInFlight := false;
      weatherData := Some(w);
      store := store.(weather := Some(w));
      Widget.ApplyPreservesInv(before, Widget.WeatherLoaded(w));
    }

    method OnWeatherError()
      requires Valid() && weatherInFlight
      modifies this
      ensures Snapshot() == Widget.OnWeatherError(old(Snapshot())) && Valid()
    {
      ghost var before := Snapshot();
      weatherInFlight := false;
      error := Some(Widget.WeatherFailedMessage);
      Widget.ApplyPreservesInv(before, Widget.WeatherError);
    }

    method OnAddressLoaded(a: Widget.Address)
      requires Valid() && locationInFlight
      modifies this
      ensures Snapshot() == Widget.OnAddressLoaded(old(Snapshot()), a) && Valid()
    {
      ghost var before := Snapshot();
      locationInFlight := false;
      location := Some(a);
      store := store.(location := Some(a));
      Widget.ApplyPreservesInv(before, Widget.AddressLoaded(a));
    }

    method OnAddressError()
      requires Valid() && locationInFlight
      modifies this
      ensures Snapshot() == Widget.OnAddressError(old(Snapshot())) && Valid()
    {
      ghost var before := Snapshot();
      locationInFlight := false;
      error := Some(Widget.AddressFailedMessage);
      Widget.ApplyPreservesInv(before, Widget.AddressError);
    }

    /** The picker button's click handler. */
    method OnToggleClick()
      requires Valid()
      modifies this
      ensures Snapshot() == Widget.OnToggle(old(Snapshot())) && Valid()
    {
      ghost var before := Snapshot();
      showPicker := !showPicker;
      Widget.ApplyPreservesInv(before, Widget.PickerToggled);
    }

    /** The document's mousedown listener. */
    method OnMouseDown(target: Widget.Target)
      requires Valid()
      modifies this
      ensures Snapshot() == Widget.OnMouseDown(old(Snapshot()), target) && Valid()
    {
      ghost var before := Snapshot();
      var pickerShown := mounted && showPicker;
      if pickerShown && target == Widget.Outside {
        showPicker := false;
      }
      Widget.ApplyPreservesInv(before, Widget.MouseDown(target));
    }

    /** The picker's completed choice, then the contrast effect for the new background. */
    method OnChangeComplete(hex: string)
      requires Valid() && showPicker && Contrast.Decodable(hex)
      modifies this
      ensures Snapshot() == Widget.OnColourPicked(old(Snapshot()), hex) && Valid()
    {
      ghost var before := Snapshot();
      bgColor := hex;
      textColor := Contrast.CalculateContrast(bgColor);
      Widget.ApplyPreservesInv(before, Widget.ColourPicked(hex));
    }
  }

  /** A session on a warm cache: mount, fix, and the cached values are in place without any fetch. */
  method CachedSession(w: Widget.WeatherSnapshot, a: Widget.Address) returns (widget: WeatherWidget)
    ensures widget.weatherData == Some(w) && widget.location == Some(a)
    ensures !widget.weatherInFlight && !widget.locationInFlight
    ensures widget.textColor == Contrast.Black
  {
    widget := new WeatherWidget(Widget.Store(Some(w), Some(a)));
    widget.Mount(true);
    Contrast.DefaultBackgroundIsLight();
    widget.OnPosition();
  }
}
