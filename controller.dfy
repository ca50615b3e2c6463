/**
 * The two event handlers of `createSequenceControls` end to end: a press on
 * a step button, or a slider move, selects an attribute and redraws the
 * symbols and the legend for it with `updateProportionalSymbols`.
 */
module Controller {
  import opened Wrappers
  import opened Strings
  import opened Selection
  import opened Symbols
  import opened Statistics

  /**
   * The state after `updateProportionalSymbols(attribute)`: selected layers
   * get the new radius and popup, the others keep theirs, and the legend
   * shows the attribute's year and extremes.
   */
  twostate predicate Redrawn(layers: seq<Layer>, legend: Legend, attribute: string,
                             radiusOf: Option<real> -> real, showNumber: real -> string)
    reads set i | 0 <= i < |layers| :: layers[i]
    reads legend
  {
    (forall i :: 0 <= i < |layers| && Selected(layers[i], attribute) ==>
      layers[i].radius == radiusOf(AttributeNumber(layers[i].feature.value, attribute)) &&
      layers[i].popup == UpdatedPopupContent(layers[i].feature.value.properties, attribute, showNumber)) &&
    (forall i :: 0 <= i < |layers| && !Selected(layers[i], attribute) ==>
      layers[i].radius == old(layers[i].radius) && layers[i].popup == old(layers[i].popup)) &&
    legend.year == YearText(attribute) &&
    (legend.values == NoValues <==> forall i :: 0 <= i < |layers| ==> !HasValue(layers[i], attribute)) &&
    (legend.values.CircleValues? ==>
      var vs := PresentValues(layers, attribute);
      |vs| > 0 && legend.values.min == MinOf(vs) && legend.values.max == MaxOf(vs) &&
      legend.values.mean == (legend.values.min + legend.values.max) / 2.0)
  }

  /** Neither a layer nor the legend changed. */
  twostate predicate Untouched(layers: seq<Layer>, legend: Legend)
    reads set i | 0 <= i < |layers| :: layers[i]
    reads legend
  {
    (forall i :: 0 <= i < |layers| ==>
      layers[i].radius == old(layers[i].radius) && layers[i].popup == old(layers[i].popup)) &&
    legend.year == old(legend.year) && legend.values == old(legend.values)
  }

  /**
   * The click handler: step the slider, then redraw for `attributes[index]`.
   * When the list has no attribute at the new index, `ok` is false and
   * nothing is redrawn.
   */
  method PressStep(control: SequenceControl, d: Direction, layers: seq<Layer>, legend: Legend,
                   radiusOf: Option<real> -> real, showNumber: real -> string) returns (ok: bool)
    requires control.Valid()
    modifies control, set i | 0 <= i < |layers| :: layers[i], legend
    ensures control.Valid() && control.index == Step(d, old(control.index))
    ensures ok <==> 0 <= control.index < |control.attributes|
    ensures ok ==> Redrawn(layers, legend, control.attributes[control.index], radiusOf, showNumber)
    ensures !ok ==> Untouched(layers, legend)
  {
    var attribute := control.Click(d);
    match attribute {
      case None =>
        ok := false;
      case Some(a) =>
        UpdateProportionalSymbols(layers, legend, a, radiusOf, showNumber);
        ok := true;
    }
  }

  /** The input handler: the slider now reads `value`; redraw for `attributes[value]`. */
  method MoveSlider(control: SequenceControl, value: int, layers: seq<Layer>, legend: Legend,
                    radiusOf: Option<real> -> real, showNumber: real -> string) returns (ok: bool)
    requires SliderMin <= value <= SliderMax
    modifies control, set i | 0 <= i < |layers| :: layers[i], legend
    ensures control.Valid() && control.index == value
    ensures ok <==> value < |control.attributes|
    ensures ok ==> Redrawn(layers, legend, control.attributes[value], radiusOf, showNumber)
    ensures !ok ==> Untouched(layers, legend)
  {
    var attribute := control.Input(value);
    match attribute {
      case None =>
        ok := false;
      case Some(a) =>
        UpdateProportionalSymbols(layers, legend, a, radiusOf, showNumber);
        ok := true;
    }
  }
}
