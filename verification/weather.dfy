/** The weather panel's icon for a WMO weather interpretation code (code
    table 4677, as reported by the Open-Meteo forecast service). */
module Weather {

  /** The icons the panel can show. */
  datatype Icon = Sunny | PartlyCloudy | Fog | Rain | Snow | Showers | SnowShowers | Thunderstorm
                | Thermometer  // a code outside every range, or a failed forecast

  /** The emoji written into the page for an icon. */
  function Glyph(icon: Icon): (r: string)
    ensures r != []
  {
    match icon
    case Sunny => "\U{2600}\U{FE0F}"
    case PartlyCloudy => "\U{26C5}"
    case Fog => "\U{1F32B}\U{FE0F}"
    case Rain => "\U{1F327}\U{FE0F}"
    case Snow => "\U{2744}\U{FE0F}"
    case Showers => "\U{1F326}\U{FE0F}"
    case SnowShowers => "\U{1F328}\U{FE0F}"
    case Thunderstorm => "\U{26C8}\U{FE0F}"
    case Thermometer => "\U{1F321}\U{FE0F}"
  }

  /** An inclusive range of codes and the icon they share. */
  datatype Band = Band(lo: int, hi: int, icon: Icon)
  {
    predicate Covers(code: int)
    {
      lo <= code <= hi
    }
  }

  /** The code groups of the WMO table, in increasing order: clear sky,
      mainly clear to overcast, fog, drizzle, rain, snow, rain showers, snow
      showers and thunderstorm. */
  const Bands: seq<Band> := [
    Band(0, 0, Sunny),
    Band(1, 3, PartlyCloudy),
    Band(45, 48, Fog),
    Band(51, 57, Rain),
    Band(61, 67, Rain),
    Band(71, 77, Snow),
    Band(80, 82, Showers),
    Band(85, 86, SnowShowers),
    Band(95, 99, Thunderstorm)
  ]

  /** Reference definition: the icon of the first band covering the code,
      the thermometer when none does. */
  function BandIcon(bands: seq<Band>, code: int): (r: Icon)
    ensures (exists i :: 0 <= i < |bands| && bands[i].Covers(code)) || r == Thermometer
    ensures (forall i :: 0 <= i < |bands| ==> !bands[i].Covers(code)) ==> r == Thermometer
  {
    if bands == [] then Thermometer
    else if bands[0].Covers(code) then bands[0].icon
    else
      var r := BandIcon(bands[1..], code);
      assert forall i :: 0 < i < |bands| ==> bands[i] == bands[1..][i - 1];
      r
  }

  /** No two bands share a code, and they are listed in increasing order. */
  predicate Ascending(bands: seq<Band>)
  {
    (forall i :: 0 <= i < |bands| ==> bands[i].lo <= bands[i].hi) &&
    (forall i, j :: 0 <= i < j < |bands| ==> bands[i].hi < bands[j].lo)
  }

  /** The icon for a weather code: a chain of range tests, the last resort
      being the thermometer. */
  function WeatherIcon(code: int): (r: Icon)
    ensures forall i :: 0 <= i < |Bands| && Bands[i].Covers(code) ==> r == Bands[i].icon
  {
    if code == 0 then Sunny
    else if code == 1 || code == 2 || code == 3 then PartlyCloudy
    else if 45 <= code <= 48 then Fog
    else if 51 <= code <= 57 then Rain
    else if 61 <= code <= 67 then Rain
    else if 71 <= code <= 77 then Snow
    else if 80 <= code <= 82 then Showers
    else if 85 <= code <= 86 then SnowShowers
    else if 95 <= code <= 99 then Thunderstorm
    else Thermometer
  }

  /** Distinct icons are written as distinct text. */
  lemma GlyphsDistinct(a: Icon, b: Icon)
    requires a != b
    ensures Glyph(a) != Glyph(b)
  {
  }

  /** The thermometer is shown exactly for the codes no band covers. */
  lemma ThermometerForUncoveredCodes(code: int)
    ensures WeatherIcon(code) == Thermometer <==> forall i :: 0 <= i < |Bands| ==> !Bands[i].Covers(code)
  {
    WeatherIconIsBandIcon(code);
    if i :| 0 <= i < |Bands| && Bands[i].Covers(code) {
      assert Bands[i].icon != Thermometer;
    }
  }

  /** No two bands at different positions share a code, in whatever order
      they are listed. */
  predicate Disjoint(bands: seq<Band>)
  {
    forall i, j :: 0 <= i < |bands| && 0 <= j < |bands| && i != j ==>
      bands[i].hi < bands[j].lo || bands[j].hi < bands[i].lo
  }

  /** The WMO bands are listed in increasing order. */
  lemma BandsAscending()
    ensures Ascending(Bands)
  {
  }

  lemma AscendingIsDisjoint(bands: seq<Band>)
    requires Ascending(bands)
    ensures Disjoint(bands)
  {
    forall i, j | 0 <= i < |bands| && 0 <= j < |bands| && i != j
      ensures bands[i].hi < bands[j].lo || bands[j].hi < bands[i].lo
    {
      if i < j {
        assert bands[i].hi < bands[j].lo;
      } else {
        assert bands[j].hi < bands[i].lo;
      }
    }
  }

  /** In a table of disjoint bands, listed in any order, the band covering
      a code decides its icon. */
  lemma {:induction false} CoveringBandIsUnique(bands: seq<Band>, code: int, i: int)
    requires Disjoint(bands)
    requires 0 <= i < |bands| && bands[i].Covers(code)
    ensures BandIcon(bands, code) == bands[i].icon
  {
    if i == 0 {
    } else {
      assert !bands[0].Covers(code) by {
        assert bands[0].hi < bands[i].lo || bands[i].hi < bands[0].lo;
      }
      var tail := bands[1..];
      assert Disjoint(tail) by {
        forall a, b | 0 <= a < |tail| && 0 <= b < |tail| && a != b
          ensures tail[a].hi < tail[b].lo || tail[b].hi < tail[a].lo
        {
          assert tail[a] == bands[a + 1] && tail[b] == bands[b + 1];
        }
      }
      assert tail[i - 1] == bands[i];
      CoveringBandIsUnique(tail, code, i - 1);
    }
  }

  /** Two disjoint tables holding the same bands, in whatever order, give
      every code the same icon: the order of the range tests does not
      matter. */
  lemma TestOrderIsIrrelevant(bands: seq<Band>, other: seq<Band>, code: int)
    requires Disjoint(bands) && Disjoint(other)
    requires forall b :: b in bands <==> b in other
    ensures BandIcon(bands, code) == BandIcon(other, code)
  {
    if i :| 0 <= i < |bands| && bands[i].Covers(code) {
      CoveringBandIsUnique(bands, code, i);
      assert bands[i] in other;
      var j :| 0 <= j < |other| && other[j] == bands[i];
      CoveringBandIsUnique(other, code, j);
    } else {
      forall j | 0 <= j < |other| ensures !other[j].Covers(code) {
        assert other[j] in bands;
      }
    }
  }

  /** The chain of tests agrees with the table for every integer code. */
  lemma WeatherIconIsBandIcon(code: int)
    ensures WeatherIcon(code) == BandIcon(Bands, code)
  {
    BandsAscending();
    AscendingIsDisjoint(Bands);
    if i :| 0 <= i < |Bands| && Bands[i].Covers(code) {
      CoveringBandIsUnique(Bands, code, i);
    } else {
      assert !Bands[0].Covers(code) && !Bands[1].Covers(code) && !Bands[2].Covers(code);
      assert !Bands[3].Covers(code) && !Bands[4].Covers(code) && !Bands[5].Covers(code);
      assert !Bands[6].Covers(code) && !Bands[7].Covers(code) && !Bands[8].Covers(code);
    }
  }

  /** Every code the forecast service documents has an icon of its own. */
  const DocumentedCodes: set<int> := {0, 1, 2, 3, 45, 48, 51, 53, 55, 56, 57, 61, 63, 65, 66, 67,
                                      71, 73, 75, 77, 80, 81, 82, 85, 86, 95, 96, 99}

  lemma DocumentedCodesHaveIcons(code: int)
    requires code in DocumentedCodes
    ensures WeatherIcon(code) != Thermometer
  {
  }
}
