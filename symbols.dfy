/**
 * The proportional symbols on the map: one circle layer per city, the
 * per-year extremes the legend shows (`getCircleValues`), the popup text
 * (`createPopupContent`) and the redraw when the year changes
 * (`updateProportionalSymbols` followed by `updateLegend`).
 *
 * The radius formula `calcProportionalRadius` is the parameter `radiusOf`:
 * it is applied to the attribute value after JavaScript's numeric
 * conversion (`None` is `NaN`). JavaScript's number-to-text conversion is
 * the parameter `showNumber`.
 */
module Symbols {
  import opened Wrappers
  import opened Values
  import opened Strings
  import opened Statistics

  /**
   * A map layer as `map.eachLayer` visits it. `feature` is set once, when
   * `L.geoJson` creates the layer, and is `None` for layers that draw no
   * feature (the tile layer); the radius and the popup content change.
   */
  class Layer {
    const feature: Option<Feature>
    var radius: real
    var popup: string

    constructor (feature: Option<Feature>, radius: real, popup: string)
      ensures this.feature == feature && this.radius == radius && this.popup == popup
    {
      this.feature := feature;
      this.radius := radius;
      this.popup := popup;
    }

    /**
     * `pointToLayer`: the circle marker of a feature for the first
     * attribute, sized by the radius formula and carrying the initial popup.
     */
    constructor FromFeature(f: Feature, attribute: string,
                            radiusOf: Option<real> -> real, showNumber: real -> string)
      ensures feature == Some(f)
      ensures radius == radiusOf(AttributeNumber(f, attribute))
      ensures popup == CreatePopupContent(f.properties, attribute, showNumber)
    {
      feature := Some(f);
      radius := radiusOf(ToNumber(Get(f.properties, attribute)));
      popup := CreatePopupContent(f.properties, attribute, showNumber);
    }
  }

  /** `Number(feature.properties[attribute])`; `None` is `NaN`. */
  function AttributeNumber(f: Feature, attribute: string): Option<real>
  {
    ToNumber(Get(f.properties, attribute))
  }

  /** The layer draws a feature whose value for `attribute` is a number (not `NaN`). */
  predicate HasValue(l: Layer, attribute: string)
  {
    l.feature.Some? && AttributeNumber(l.feature.value, attribute).Some?
  }

  /** The numeric values for `attribute` of the layers that draw a feature, in layer order. */
  function PresentValues(layers: seq<Layer>, attribute: string): seq<real>
  {
    if layers == [] then []
    else
      var l := layers[|layers| - 1];
      PresentValues(layers[..|layers| - 1], attribute) +
        (if HasValue(l, attribute) then [AttributeNumber(l.feature.value, attribute).value] else [])
  }

  /**
   * A value is present exactly when some layer draws a feature with that
   * number for the attribute: layers without a feature and `NaN` values are
   * skipped, nothing else is.
   */
  lemma {:induction false} PresentValuesMembers(layers: seq<Layer>, attribute: string, v: real)
    ensures v in PresentValues(layers, attribute) <==>
      exists i :: 0 <= i < |layers| && HasValue(layers[i], attribute) &&
                  AttributeNumber(layers[i].feature.value, attribute) == Some(v)
    decreases |layers|
  {
    if layers != [] {
      var init := layers[..|layers| - 1];
      PresentValuesMembers(init, attribute, v);
      assert forall i :: 0 <= i < |init| ==> init[i] == layers[i];
    }
  }

  /** No value is present exactly when no layer has a number for the attribute. */
  lemma {:induction false} PresentValuesEmpty(layers: seq<Layer>, attribute: string)
    ensures PresentValues(layers, attribute) == [] <==>
      forall i :: 0 <= i < |layers| ==> !HasValue(layers[i], attribute)
    decreases |layers|
  {
    if layers != [] {
      var init := layers[..|layers| - 1];
      PresentValuesEmpty(init, attribute);
      assert forall i :: 0 <= i < |init| ==> init[i] == layers[i];
    }
  }

  /**
   * What `getCircleValues` returns. `NoValues` is the object
   * `{max: -Infinity, mean: NaN, min: Infinity}` that comes out when no layer
   * has a number for the attribute.
   */
  datatype CircleValues = NoValues | CircleValues(max: real, mean: real, min: real)

  /** `attributeValue < min`, which is false when the value is `NaN`. */
  predicate Below(v: Option<real>, e: Ext)
  {
    v.Some? && match e
      case NegInf => false
      case Finite(x) => v.value < x
      case PosInf => true
  }

  /** `attributeValue > max`, which is false when the value is `NaN`. */
  predicate Above(v: Option<real>, e: Ext)
  {
    v.Some? && match e
      case NegInf => true
      case Finite(x) => v.value > x
      case PosInf => false
  }

  /** The loop state of `getCircleValues` after the values `vs`: the infinities, or their extremes. */
  predicate ExtremesOf(vs: seq<real>, min: Ext, max: Ext)
  {
    if vs == [] then min == PosInf && max == NegInf
    else min == Finite(MinOf(vs)) && max == Finite(MaxOf(vs))
  }

  /** One visit of the loop keeps `ExtremesOf`, and a `NaN` value changes nothing. */
  lemma ExtremesStep(vs: seq<real>, v: Option<real>, min: Ext, max: Ext)
    requires ExtremesOf(vs, min, max)
    ensures ExtremesOf(vs + (if v.Some? then [v.value] else []),
                       if Below(v, min) then Finite(v.value) else min,
                       if Above(v, max) then Finite(v.value) else max)
  {
    if v.Some? {
      var ws := vs + [v.value];
      assert ws[..|ws| - 1] == vs;
    } else {
      assert vs + [] == vs;
    }
  }

  /** The loop state after visiting the layers `layers[..i + 1]`. */
  lemma PresentValuesPrefix(layers: seq<Layer>, attribute: string, i: nat)
    requires i < |layers|
    ensures PresentValues(layers[..i + 1], attribute) ==
      PresentValues(layers[..i], attribute) +
        (if layers[i].feature.Some? && AttributeNumber(layers[i].feature.value, attribute).Some?
         then [AttributeNumber(layers[i].feature.value, attribute).value] else [])
  {
    assert layers[..i + 1][..i] == layers[..i];
  }

  /**
   * The extremes of the present values are bounds of every layer's value and
   * are each some layer's value, and their midpoint lies between them. This
   * is the step from the fold to the last three ensures of `GetCircleValues`.
   */
  lemma PresentExtremes(layers: seq<Layer>, attribute: string)
    requires PresentValues(layers, attribute) != []
    ensures var vs := PresentValues(layers, attribute);
      var lo, hi := MinOf(vs), MaxOf(vs);
      lo <= (hi + lo) / 2.0 <= hi &&
      (forall i :: 0 <= i < |layers| && HasValue(layers[i], attribute) ==>
        lo <= AttributeNumber(layers[i].feature.value, attribute).value <= hi) &&
      (exists i :: 0 <= i < |layers| && HasValue(layers[i], attribute) &&
                   AttributeNumber(layers[i].feature.value, attribute) == Some(lo)) &&
      (exists i :: 0 <= i < |layers| && HasValue(layers[i], attribute) &&
                   AttributeNumber(layers[i].feature.value, attribute) == Some(hi))
  {
    var vs := PresentValues(layers, attribute);
    PresentValuesMembers(layers, attribute, MinOf(vs));
    PresentValuesMembers(layers, attribute, MaxOf(vs));
    forall i | 0 <= i < |layers| && HasValue(layers[i], attribute)
      ensures MinOf(vs) <= AttributeNumber(layers[i].feature.value, attribute).value <= MaxOf(vs)
    {
      PresentValuesMembers(layers, attribute, AttributeNumber(layers[i].feature.value, attribute).value);
    }
  }

  /**
   * `getCircleValues(attribute)`: the smallest and largest numeric value of
   * the attribute over the layers, and their midpoint as `mean`.
   */
  method GetCircleValues(layers: seq<Layer>, attribute: string) returns (r: CircleValues)
    ensures r == NoValues <==> forall i :: 0 <= i < |layers| ==> !HasValue(layers[i], attribute)
    ensures r.CircleValues? ==>
      var vs := PresentValues(layers, attribute);
      |vs| > 0 && r.min == MinOf(vs) && r.max == MaxOf(vs) && r.mean == (r.min + r.max) / 2.0
    ensures r.CircleValues? ==>
      r.min <= r.mean <= r.max &&
      forall i :: 0 <= i < |layers| && HasValue(layers[i], attribute) ==>
        r.min <= AttributeNumber(layers[i].feature.value, attribute).value <= r.max
    ensures r.CircleValues? ==>
      (exists i :: 0 <= i < |layers| && HasValue(layers[i], attribute) &&
                   AttributeNumber(layers[i].feature.value, attribute) == Some(r.min)) &&
      (exists i :: 0 <= i < |layers| && HasValue(layers[i], attribute) &&
                   AttributeNumber(layers[i].feature.value, attribute) == Some(r.max))
  {
    var min, max := PosInf, NegInf;
    for i := 0 to |layers|
      invariant ExtremesOf(PresentValues(layers[..i], attribute), min, max)
    {
      PresentValuesPrefix(layers, attribute, i);
      if layers[i].feature.Some? {
        var attributeValue := ToNumber(Get(layers[i].feature.value.properties, attribute));
        ExtremesStep(PresentValues(layers[..i], attribute), attributeValue, min, max);
        if Below(attributeValue, min) {
          min := Finite(attributeValue.value);
        }
        if Above(attributeValue, max) {
          max := Finite(attributeValue.value);
        }
      } else {
        assert PresentValues(layers[..i], attribute) + [] == PresentValues(layers[..i], attribute);
      }
    }
    assert layers[..|layers|] == layers;
    PresentValuesEmpty(layers, attribute);
    if PresentValues(layers, attribute) == [] {
      return NoValues;
    }
    PresentExtremes(layers, attribute);
    r := CircleValues(max.x, (max.x + min.x) / 2.0, min.x);
  }

  const CityOpen: string := "<p><b>City:</b> "
  const YearOpen: string := "<p><b>Average August Temperature in "
  const ValueOpen: string := ":</b> "
  const ParagraphClose: string := "</p>"
  const DegreesClose: string := " degrees F</p>"

  /** The first paragraph of both popups: the city name. */
  function CityParagraph(p: Properties, showNumber: real -> string): string
  {
    CityOpen + Show(Get(p, "City_Name"), showNumber) + ParagraphClose
  }

  /** The second paragraph up to the value: the label with the attribute's year. */
  function YearLabel(attribute: string): string
  {
    YearOpen + YearText(attribute) + ValueOpen
  }

  /** `createPopupContent(properties, attribute)`: the popup bound when a layer is created. */
  function CreatePopupContent(p: Properties, attribute: string, showNumber: real -> string): string
  {
    CityParagraph(p, showNumber) + YearLabel(attribute) + Show(Get(p, attribute), showNumber) + ParagraphClose
  }

  /** The popup text `updateProportionalSymbols` builds; it ends in " degrees F". */
  function UpdatedPopupContent(p: Properties, attribute: string, showNumber: real -> string): string
  {
    CityParagraph(p, showNumber) + YearLabel(attribute) + Show(Get(p, attribute), showNumber) + DegreesClose
  }

  /**
   * The popup a redraw writes is the initial popup with " degrees F"
   * inserted before its closing tag: the two differ in nothing else.
   */
  lemma UpdatedPopupAddsUnit(p: Properties, attribute: string, showNumber: real -> string)
    ensures var c := CreatePopupContent(p, attribute, showNumber);
      |c| >= 4 &&
      UpdatedPopupContent(p, attribute, showNumber) == c[..|c| - 4] + " degrees F" + c[|c| - 4..]
  {
    var c := CreatePopupContent(p, attribute, showNumber);
    var body := CityParagraph(p, showNumber) + YearLabel(attribute) + Show(Get(p, attribute), showNumber);
    assert c == body + ParagraphClose;
    assert c[..|c| - 4] == body;
    assert c[|c| - 4..] == ParagraphClose;
  }

  /** An occurrence in `x` is one in `x + y` too. */
  lemma OccursLeft(x: string, y: string, a: string, i: nat)
    requires OccursAt(x, a, i)
    ensures OccursAt(x + y, a, i)
  {
    assert (x + y)[i..i + |a|] == x[i..i + |a|];
  }

  /** An occurrence in `y` is one in `x + y`, shifted by `|x|`. */
  lemma OccursRight(x: string, y: string, a: string, j: nat)
    requires OccursAt(y, a, j)
    ensures OccursAt(x + y, a, |x| + j)
  {
    assert (x + y)[|x| + j..|x| + j + |a|] == y[j..j + |a|];
  }

  /** Where the city name stands in a popup. */
  lemma PopupCity(p: Properties, attribute: string, showNumber: real -> string)
    ensures OccursAt(CreatePopupContent(p, attribute, showNumber), Show(Get(p, "City_Name"), showNumber), |CityOpen|)
  {
    var city := Show(Get(p, "City_Name"), showNumber);
    var head := CityParagraph(p, showNumber);
    var yearLabel := YearLabel(attribute);
    var value := Show(Get(p, attribute), showNumber);
    assert OccursAt(city, city, 0);
    OccursRight(CityOpen, city, city, 0);
    OccursLeft(CityOpen + city, ParagraphClose, city, |CityOpen|);
    OccursLeft(head, yearLabel, city, |CityOpen|);
    OccursLeft(head + yearLabel, value, city, |CityOpen|);
    OccursLeft(head + yearLabel + value, ParagraphClose, city, |CityOpen|);
  }

  /** Where the year stands in a popup: right after the temperature label. */
  lemma PopupYear(p: Properties, attribute: string, showNumber: real -> string)
    ensures OccursAt(CreatePopupContent(p, attribute, showNumber), YearText(attribute),
                     |CityParagraph(p, showNumber)| + |YearOpen|)
  {
    var year := YearText(attribute);
    var head := CityParagraph(p, showNumber);
    var yearLabel := YearLabel(attribute);
    var value := Show(Get(p, attribute), showNumber);
    assert OccursAt(year, year, 0);
    OccursRight(YearOpen, year, year, 0);
    OccursLeft(YearOpen + year, ValueOpen, year, |YearOpen|);
    OccursRight(head, yearLabel, year, |YearOpen|);
    OccursLeft(head + yearLabel, value, year, |head| + |YearOpen|);
    OccursLeft(head + yearLabel + value, ParagraphClose, year, |head| + |YearOpen|);
  }

  /** Where the value stands in a popup: right after the label that carries the year. */
  lemma PopupValue(p: Properties, attribute: string, showNumber: real -> string)
    ensures OccursAt(CreatePopupContent(p, attribute, showNumber), Show(Get(p, attribute), showNumber),
                     |CityParagraph(p, showNumber)| + |YearLabel(attribute)|)
  {
    var head := CityParagraph(p, showNumber);
    var yearLabel := YearLabel(attribute);
    var value := Show(Get(p, attribute), showNumber);
    assert OccursAt(value, value, 0);
    OccursRight(head + yearLabel, value, value, 0);
    OccursLeft(head + yearLabel + value, ParagraphClose, value, |head + yearLabel|);
  }

  /** The popup names the city first, then the year text right after the label, then the value. */
  lemma PopupLayout(p: Properties, attribute: string, showNumber: real -> string)
    ensures var c := CreatePopupContent(p, attribute, showNumber);
      var at := |CityParagraph(p, showNumber)| + |YearOpen|;
      OccursAt(c, Show(Get(p, "City_Name"), showNumber), |CityOpen|) &&
      OccursAt(c, YearText(attribute), at) &&
      OccursAt(c, Show(Get(p, attribute), showNumber), at + |YearText(attribute)| + |ValueOpen|)
  {
    PopupCity(p, attribute, showNumber);
    PopupYear(p, attribute, showNumber);
    PopupValue(p, attribute, showNumber);
    assert |YearLabel(attribute)| == |YearOpen| + |YearText(attribute)| + |ValueOpen|;
  }

  /** For an attribute `prefix_year` (no other underscore) the popup shows exactly `year` after the label. */
  lemma PopupShowsYear(p: Properties, prefix: string, year: string, showNumber: real -> string)
    requires '_' !in prefix && '_' !in year
    ensures YearText(prefix + "_" + year) == year
    ensures OccursAt(CreatePopupContent(p, prefix + "_" + year, showNumber), year,
                     |CityParagraph(p, showNumber)| + |YearOpen|)
  {
    YearAfterFirstUnderscore(prefix, year);
    PopupLayout(p, prefix + "_" + year, showNumber);
  }

  /** The guard `layer.feature && layer.feature.properties[attribute]`. */
  predicate Selected(l: Layer, attribute: string)
  {
    l.feature.Some? && Truthy(Get(l.feature.value.properties, attribute))
  }

  /**
   * For a numeric property the redraw guard is "not zero", while the
   * extremes take every number: a temperature of exactly 0 is counted by
   * `getCircleValues` but its layer's circle and popup are not redrawn.
   */
  lemma NumericSelection(l: Layer, attribute: string, x: real)
    requires l.feature.Some? && Get(l.feature.value.properties, attribute) == Some(Num(x))
    ensures HasValue(l, attribute) && AttributeNumber(l.feature.value, attribute) == Some(x)
    ensures Selected(l, attribute) <==> x != 0.0
  {
  }

  /** The legend: the year in its title and the extremes its three circles and labels show. */
  class Legend {
    var year: string
    var values: CircleValues

    constructor (year: string, values: CircleValues)
      ensures this.year == year && this.values == values
    {
      this.year := year;
      this.values := values;
    }
  }

  /** `updateLegend(attribute)`: the year in the title and the extremes over all layers. */
  method UpdateLegend(layers: seq<Layer>, legend: Legend, attribute: string)
    modifies legend
    ensures legend.year == YearText(attribute)
    ensures legend.values == NoValues <==>
      forall i :: 0 <= i < |layers| ==> !HasValue(layers[i], attribute)
    ensures legend.values.CircleValues? ==>
      var vs := PresentValues(layers, attribute);
      |vs| > 0 && legend.values.min == MinOf(vs) && legend.values.max == MaxOf(vs) &&
      legend.values.mean == (legend.values.min + legend.values.max) / 2.0
  {
    legend.year := YearText(attribute);
    legend.values := GetCircleValues(layers, attribute);
  }

  /**
   * `updateProportionalSymbols(attribute)`: every layer that draws a feature
   * with a truthy value for the attribute gets the radius and popup for that
   * value; every other layer keeps its radius and popup. The legend follows.
   */
  method UpdateProportionalSymbols(layers: seq<Layer>, legend: Legend, attribute: string,
                                   radiusOf: Option<real> -> real, showNumber: real -> string)
    modifies set i | 0 <= i < |layers| :: layers[i]
    modifies legend
    ensures forall i :: 0 <= i < |layers| && Selected(layers[i], attribute) ==>
      layers[i].radius == radiusOf(AttributeNumber(layers[i].feature.value, attribute)) &&
      layers[i].popup == UpdatedPopupContent(layers[i].feature.value.properties, attribute, showNumber)
    ensures forall i :: 0 <= i < |layers| && !Selected(layers[i], attribute) ==>
      layers[i].radius == old(layers[i].radius) && layers[i].popup == old(layers[i].popup)
    ensures legend.year == YearText(attribute)
    ensures legend.values == NoValues <==>
      forall i :: 0 <= i < |layers| ==> !HasValue(layers[i], attribute)
    ensures legend.values.CircleValues? ==>
      var vs := PresentValues(layers, attribute);
      |vs| > 0 && legend.values.min == MinOf(vs) && legend.values.max == MaxOf(vs) &&
      legend.values.mean == (legend.values.min + legend.values.max) / 2.0
  {
    for i := 0 to |layers|
      invariant forall l :: l in layers && Selected(l, attribute) && l in layers[..i] ==>
        l.radius == radiusOf(AttributeNumber(l.feature.value, attribute)) &&
        l.popup == UpdatedPopupContent(l.feature.value.properties, attribute, showNumber)
      invariant forall l :: l in layers && !(Selected(l, attribute) && l in layers[..i]) ==>
        l.radius == old(l.radius) && l.popup == old(l.popup)
    {
      assert layers[..i + 1] == layers[..i] + [layers[i]];
      var layer := layers[i];
      if layer.feature.Some? && Truthy(Get(layer.feature.value.properties, attribute)) {
        var props := layer.feature.value.properties;
        layer.radius := radiusOf(ToNumber(Get(props, attribute)));
        layer.popup := UpdatedPopupContent(props, attribute, showNumber);
      }
    }
    assert layers[..|layers|] == layers;
    UpdateLegend(layers, legend, attribute);
  }
}
