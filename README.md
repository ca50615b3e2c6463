# Summer Heat map: a Dafny model of its data logic

The Summer Heat map script (`js/main.js`) loads a GeoJSON file of cities with
one August temperature per year (`Temp_2018` … `Temp_2025`) and draws each city
as a proportional circle on a Leaflet map. A slider and two step buttons choose
the year, and a legend shows the smallest, middle and largest value of the
chosen year. This project models the logic behind that, without Leaflet or the
DOM:

- `Attributes`: `processData`. It keeps, in order, the property names of the
  first feature that contain `Temp`.
- `Selection`: the slider bounds and the forward/reverse step handler, with
  the script's hard-coded constants. Forward wraps 7 → 0. Reverse wraps 0 → 6,
  not 7, so reverse presses cycle through 0..6 only. The lemmas
  `ReverseCycle` and `ForwardReverseAsymmetry` state this as the code does it.
- `Statistics`: `Math.min`, `Math.max` and the `reduce` sum as folds. Also the
  intended assignments of `calculateStatistics` into the global `dataStats`.
- `Symbols`: map layers as objects whose radius and popup change in place.
  Also `getCircleValues` (the extremes and their midpoint over the layers),
  the popup text, `updateProportionalSymbols` and `updateLegend`.
- `Strings`: `indexOf` and `split("_")`, which give the year of an attribute.
- `Values`: property values, property lookup (`undefined` when missing),
  `Number(...)` (`NaN` is `None`) and JavaScript truthiness. `WellFormed`
  says a properties object lists each of its keys exactly once.
- `Controller`: the click and slider-input handlers end to end. The step or
  the slider value selects an attribute, and the map is redrawn for it.
- `Wrappers`: `Option` and `Result`.

Behaviours of the code worth knowing, which the model keeps as written:
- The slider's maximum is the constant 7 (js/main.js:152). The comment at
  js/main.js:151 says the bound assumes 8 attributes and suggests
  `attributes.length - 1`; the code does not do that.
- Reverse wraps from 0 to 6 (js/main.js:178). The comment at js/main.js:177
  says "wrap to the end", but the last index is 7.
- The attribute test is "contains `Temp`" anywhere in the name, not a `Temp_` prefix.
- A dataset without features fails by reading `properties` of `undefined`.
- A first feature without temperature properties gives an empty list, not an error.
- `getCircleValues` with no numeric value returns the infinities (`NoValues` here), not an error.
- `updateProportionalSymbols` redraws only layers whose value is truthy. So a
  temperature of exactly 0 keeps its old circle, though `getCircleValues`
  still counts it.

As written, `calculateStatistics` (js/main.js:195-205) is truncated. The two
loops it opens at lines 198-199 are never closed and never push anything into
`allValues`, so the file does not even parse. The model takes the evident
intent of lines 201-204 over a given sequence of values.

## Model

| member | source | states |
|---|---|---|
| `Strings.IndexFrom` | js/main.js:377 | `indexOf` returns -1 exactly when the substring occurs nowhere from the start position on; otherwise it returns the first position where it occurs |
| `Strings.IndexOfContains` | js/main.js:377 | `indexOf(sub) > -1` holds exactly when `sub` is a substring, and the index returned is its first occurrence |
| `Strings.Split` | js/main.js:88 | `split("_")` gives at least one piece, and no piece contains the separator |
| `Strings.JoinSplit` | js/main.js:88 | joining the pieces of a split with the separator gives back the original string |
| `Strings.SplitJoin` | js/main.js:88 | splitting a join of separator-free pieces gives back exactly those pieces |
| `Strings.YearDefined` | js/main.js:304 | `split("_")[1]` is defined exactly when the attribute contains an underscore |
| `Strings.YearAfterFirstUnderscore` | js/main.js:304 | for `p + "_" + rest`, with no underscore in `p`, the year is the text of `rest` up to its next underscore; it is all of `rest` when `rest` has none |
| `Strings.YearOfTemp2018` | js/main.js:304 | the year of `Temp_2018` is `2018` |
| `Attributes.IsTempAttributeContains` | js/main.js:377 | the attribute test holds exactly when the name contains `Temp` |
| `Attributes.TempAttributesAppend` | js/main.js:375-380 | the attribute list of concatenated name lists is the concatenation of their attribute lists, so the original order is kept |
| `Attributes.TempAttributesCount` | js/main.js:372-380 | each name occurs in the attribute list as often as among the property names when it contains `Temp`, and never otherwise |
| `Attributes.TempAttributesMembers` | js/main.js:372-380 | a name is in the attribute list exactly when it is a property name of the first feature and contains `Temp` |
| `Attributes.TempAttributesDistinct` | js/main.js:375-380 | distinct property names give distinct attributes: the loop never lists a name twice |
| `Attributes.TempAttributesOfObject` | js/main.js:372-380 | for a well-formed properties object, the attributes are distinct and each has a defined property value |
| `Attributes.ProcessData` | js/main.js:366-386 | with no features the call fails; otherwise the result is the ordered filter, by "contains `Temp`", of the first feature's property names |
| `Values.TruthyVersusNumber` | js/main.js:235 | a missing property is falsy and converts to `NaN`; a number, boolean or `null` is truthy exactly when it converts to a non-zero number; the text "0" is truthy yet converts to 0 |
| `Values.DigitsNumber` | js/main.js:235 | `Number` of a non-empty run of decimal digits is that decimal number |
| `Values.SignedDigitsNumber` | js/main.js:235 | a leading `-` negates the number of a digit run, and a leading `+` keeps it |
| `Values.DecimalNumber` | js/main.js:235 | `Number(w + "." + f)` for digit runs `w` and `f`, not both empty, is `w` plus `f` read as a fraction |
| `Values.SpaceIgnored` | js/main.js:235 | a white-space character added before or after the text does not change its number |
| `Values.BlankIsZero` | js/main.js:235 | empty or all-white-space text converts to 0 |
| `Values.OtherCharIsNaN` | js/main.js:235 | in the model's plain-decimal reading of `Number` (see Left out), text holding, after trimming, a character other than a digit, `.`, `+` or `-` converts to `NaN` |
| `Selection.AttributeAt` | js/main.js:183 | `attributes[index]` is defined exactly for indices within the list, and is then that element |
| `Selection.ForwardIsModular` | js/main.js:171-174 | on 0..7, forward is the successor modulo 8: it adds one below 7, maps 7 to 0 and stays in 0..7 |
| `Selection.ForwardStepsModular` | js/main.js:171-174 | n forward presses from an index in 0..7 give that index plus n, modulo 8 |
| `Selection.ForwardCycle` | js/main.js:152-153 | eight forward presses return to the start, and no fewer do |
| `Selection.ReverseRange` | js/main.js:175-178 | on 0..7, reverse subtracts one from 1..7 and maps 0 to 6; its result is always in 0..6 and never 7 |
| `Selection.ReverseStepsModular` | js/main.js:175-178 | on 0..6, n reverse presses give the index minus n, modulo 7 |
| `Selection.ReverseCycle` | js/main.js:175-178 | seven reverse presses return to a start in 0..6, and no number of reverse presses ever yields 7 |
| `Selection.ForwardReverseAsymmetry` | js/main.js:171-178 | reverse undoes forward except from 7, where forward then reverse gives 6; forward undoes reverse except from 0, where the round trip gives 7 |
| `Selection.SequenceControl.constructor` | js/main.js:152-155 | the slider starts at index 0 within its bounds |
| `Selection.SequenceControl.Click` | js/main.js:168-183 | a press moves the slider to the stepped index (still within 0..7) and selects `attributes` at that index, or `undefined` |
| `Selection.SequenceControl.Input` | js/main.js:188-191 | dragging the slider to a value selects `attributes` at that value |
| `Statistics.MinOf` | js/main.js:201 | the left-fold minimum is one of the values and is at most every value |
| `Statistics.MaxOf` | js/main.js:202 | the left-fold maximum is one of the values and is at least every value |
| `Statistics.SumBounds` | js/main.js:203 | the sum of n values lies between n copies of their minimum and n copies of their maximum |
| `Statistics.MeanBetween` | js/main.js:204 | the mean `sum / length` lies between the minimum and the maximum |
| `Statistics.ConstantStatistics` | js/main.js:201-204 | when all values are equal, the minimum, maximum and mean are all that value |
| `Statistics.DataStats.constructor` | js/main.js:12 | `dataStats` starts as an empty object: min, max and mean are absent |
| `Statistics.DataStats.CalculateStatistics` | js/main.js:195-205 | for non-empty values it stores their minimum, maximum and mean, so that min ≤ mean ≤ max and min ≤ v ≤ max for every value v; for none it stores +∞ and −∞ and fails before writing the mean |
| `Symbols.Layer.FromFeature` | js/main.js:218-254 | a new circle marker holds its feature, the radius for the feature's first-attribute number and the initial popup |
| `Symbols.PresentValuesMembers` | js/main.js:271-286 | a value takes part in the extremes exactly when some layer has a feature with that number for the attribute; featureless layers and `NaN` values are skipped |
| `Symbols.PresentValuesEmpty` | js/main.js:271-286 | no value takes part exactly when no layer has a number for the attribute |
| `Symbols.ExtremesStep` | js/main.js:274-284 | one loop step keeps min/max equal to the extremes of the values seen so far, or to +∞/−∞ when none was seen; a `NaN` value changes nothing |
| `Symbols.PresentExtremes` | js/main.js:289-295 | the extremes bound every layer's value, each is some layer's value, and their midpoint lies between them |
| `Symbols.GetCircleValues` | js/main.js:267-297 | with no numeric value the result is the empty (±∞) result; otherwise min and max are the extremes of the layers' numeric values, each attained by a layer, and mean is their midpoint, so min ≤ mean ≤ max |
| `Symbols.PopupLayout` | js/main.js:299-308 | the initial popup shows the city name after its label, then the attribute's year after the temperature label, then the value |
| `Symbols.PopupShowsYear` | js/main.js:304-305 | for an attribute `prefix_year` with no other underscore, the popup shows exactly `year` |
| `Symbols.NumericSelection` | js/main.js:313 | for a numeric property the layer always takes part in the extremes, but is redrawn exactly when the number is not 0 |
| `Symbols.UpdatedPopupAddsUnit` | js/main.js:322-331 | the popup a redraw writes is the initial popup with " degrees F" inserted before its closing tag, and nothing else differs |
| `Symbols.UpdateLegend` | js/main.js:86-108 | the legend shows the attribute's year and the extremes and midpoint of the layers' values, or the empty result |
| `Symbols.UpdateProportionalSymbols` | js/main.js:311-340 | every layer with a feature whose value is truthy gets the radius and the redraw popup for that value; every other layer keeps its radius and popup; the legend then follows |
| `Controller.PressStep` | js/main.js:161-184 | a step press moves the slider to the stepped index; when that index has an attribute, the map and the legend are redrawn for it as `updateProportionalSymbols` does, and otherwise nothing is redrawn |
| `Controller.MoveSlider` | js/main.js:187-191 | moving the slider to a value redraws the map and the legend for the attribute at that value, or redraws nothing when there is none |

## Left out

- The radius formula `calcProportionalRadius` (js/main.js:208-215). It raises a double to the power 0.5715, so the model takes it as the parameter `radiusOf`, applied to the value after numeric conversion.
- JavaScript's number-to-text conversion in popups: it is the parameter `showNumber`.
- Display rounding of legend labels (js/main.js:70, js/main.js:106), and the legend circles' radii and positions. `Legend` holds the year and the `getCircleValues` result the circles are drawn from.
- Doubles: values, sums and means are exact reals, with no rounding. Number literals beyond the double range, which `JSON.parse` turns into ±Infinity, are taken as exact reals. Property values never hold `NaN`, which JSON cannot express.
- `Values.StringToNumber` and `Values.OtherCharIsNaN`: the conversion covers plain decimal text (signs, a decimal point, surrounding ASCII white space, the empty string). Exponents, hexadecimal, binary and octal literals, `Infinity` and Unicode white space are not modelled; such text converts to `NaN` here, so `OtherCharIsNaN` gives `NaN` for "1e5", "0x1F" or "Infinity", which JavaScript reads as numbers.
- Object and array property values; a feature without a `properties` object.
- The enumeration order of a `for ... in` loop (integer-like keys first in JavaScript): `Properties.names` is taken as that order.
- The order in which `map.eachLayer` visits layers is the order of the `layers` sequence.
- `Controller.PressStep` and `Controller.MoveSlider`: when the index has no attribute, the script calls `updateProportionalSymbols(undefined)`. On that path at most one layer changes, and only its radius. The first layer, in `eachLayer` order, with a truthy property named "undefined" gets `setRadius` (js/main.js:319). The call then throws at `attribute.split` (js/main.js:325) before that layer's popup changes, and later layers are never visited. With no such layer it throws in `updateLegend` at js/main.js:88, before the legend changes. The model redraws nothing on that path.
- `Selection.SequenceControl.Input`: the browser keeps a range input's value within its bounds; the model requires that instead of modelling the browser's clamping.
- `Symbols.Layer.FromFeature`: takes the first attribute as a string. The path where the attribute list is empty, and `createPopupContent` throws on `undefined`, is not modelled.
- `calculateStatistics`: the code that should collect every feature's values for 2018..2025 (js/main.js:198-199) is missing from the source; the model takes the collected values as an input.
- Leaflet and DOM wiring: `createMap`, `createLegend`, the control classes, event listeners, `L.geoJson`, `createProportionalSymbols`, `querySelector` updates and `console.log` calls.
- The asynchronous `fetch` and JSON parsing in `getData` (js/main.js:343-363); the model starts from the parsed features.
- js/adaptedTutorial.js and js/quickstartTutorial.js: Leaflet setup and marker examples with no logic of their own.
