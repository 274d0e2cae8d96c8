/**
 * The weather-icon rule: a glyph chosen from the temperature band and from
 * whether the local hour falls in the day window 6 <= hour < 18. The hour is
 * a parameter here; the widget reads it from the clock.
 */
module Icon {

  /** The seven glyphs the widget can show. */
  datatype Glyph =
    | Snowflake        // U+2744 U+FE0F
    | SunBehindCloud   // U+1F324 U+FE0F
    | NewMoon          // U+1F311
    | Sun              // U+1F31E
    | LastQuarterMoon  // U+1F317
    | Fire             // U+1F525
    | FullMoonFace     // U+1F31D
  {
    /** The emoji text rendered for the glyph. */
    function Text(): (t: string)
      ensures |t| == 2 <==> this == Snowflake || this == SunBehindCloud
      ensures |t| == 1 || (|t| == 2 && t[1] == '\U{FE0F}')
    {
      match this
      case Snowflake => "\U{2744}\U{FE0F}"
      case SunBehindCloud => "\U{1F324}\U{FE0F}"
      case NewMoon => "\U{1F311}"
      case Sun => "\U{1F31E}"
      case LastQuarterMoon => "\U{1F317}"
      case Fire => "\U{1F525}"
      case FullMoonFace => "\U{1F31D}"
    }

    /** The temperature band the glyph stands for. */
    function Band(): Band {
      match this
      case Snowflake => Freezing
      case SunBehindCloud | NewMoon => Cool
      case Sun | LastQuarterMoon => Warm
      case Fire | FullMoonFace => Hot
    }

    /** Whether the glyph is the day element of its band's pair. */
    predicate IsDayGlyph() {
      this == SunBehindCloud || this == Sun || this == Fire
    }
  }

  /** Distinct glyphs render as distinct text. */
  lemma TextIsInjective(g: Glyph, h: Glyph)
    ensures g.Text() == h.Text() <==> g == h
  {
  }

  datatype Band = Freezing | Cool | Warm | Hot

  /** The temperature interval of each band, in degrees Celsius. */
  predicate InBand(temp: real, b: Band) {
    match b
    case Freezing => temp < 0.0
    case Cool => 0.0 <= temp < 20.0
    case Warm => 20.0 <= temp < 30.0
    case Hot => 30.0 <= temp
  }

  /** Every temperature lies in exactly one band. */
  lemma BandsPartition(temp: real)
    ensures exists b :: InBand(temp, b)
    ensures forall b, b' :: InBand(temp, b) && InBand(temp, b') ==> b == b'
  {
    if temp < 0.0 {
      assert InBand(temp, Freezing);
    } else if temp < 20.0 {
      assert InBand(temp, Cool);
    } else if temp < 30.0 {
      assert InBand(temp, Warm);
    } else {
      assert InBand(temp, Hot);
    }
  }

  predicate IsDayTime(hour: int) {
    6 <= hour < 18
  }

  /** `getWeatherIcon` with the clock's hour passed in. */
  function WeatherIcon(temp: real, hour: int): (g: Glyph)
    requires 0 <= hour < 24
    ensures InBand(temp, g.Band())
    ensures g.Band() != Freezing ==> (g.IsDayGlyph() <==> IsDayTime(hour))
  {
    var isDayTime := 6 <= hour && hour < 18;
    if temp < 0.0 then Snowflake
    else if temp < 20.0 then (if isDayTime then SunBehindCloud else NewMoon)
    else if temp < 30.0 then (if isDayTime then Sun else LastQuarterMoon)
    else (if isDayTime then Fire else FullMoonFace)
  }

  /** Band and (outside the freezing band) the day window determine the glyph, and nothing else does. */
  lemma IconDeterminedByBandAndDaytime(t1: real, h1: int, t2: real, h2: int)
    requires 0 <= h1 < 24 && 0 <= h2 < 24
    ensures WeatherIcon(t1, h1) == WeatherIcon(t2, h2) <==>
      exists b :: InBand(t1, b) && InBand(t2, b) && (b == Freezing || IsDayTime(h1) == IsDayTime(h2))
  {
    var g1, g2 := WeatherIcon(t1, h1), WeatherIcon(t2, h2);
    BandsPartition(t1);
    BandsPartition(t2);
    if g1 == g2 {
      assert InBand(t1, g1.Band()) && InBand(t2, g1.Band());
    }
  }

  /** Below zero the glyph is the snowflake whatever the hour. */
  lemma FreezingIgnoresHour(temp: real, hour: int)
    requires 0 <= hour < 24 && temp < 0.0
    ensures WeatherIcon(temp, hour) == Snowflake
    ensures forall h | 0 <= h < 24 :: WeatherIcon(temp, h) == WeatherIcon(temp, hour)
  {
  }

  /** Sample temperatures and hours, including each band's lower bound and both ends of the day window. */
  lemma IconExamples()
    ensures WeatherIcon(-0.1, 12) == Snowflake
    ensures WeatherIcon(0.0, 5) == NewMoon && WeatherIcon(0.0, 6) == SunBehindCloud
    ensures WeatherIcon(19.9, 10) == SunBehindCloud && WeatherIcon(19.9, 20) == NewMoon
    ensures WeatherIcon(20.0, 17) == Sun && WeatherIcon(20.0, 18) == LastQuarterMoon
    ensures WeatherIcon(30.0, 12) == Fire && WeatherIcon(30.0, 0) == FullMoonFace
  {
  }
}
