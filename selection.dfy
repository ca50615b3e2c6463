/**
 * The year-selection controls of `createSequenceControls`: a range slider
 * whose value is the index of the displayed attribute, and the forward and
 * reverse buttons that step it. The bounds and the wrap targets are the
 * constants the script hard-codes for eight years of data.
 */
module Selection {
  import opened Wrappers

  /** The slider's `min` and `max`. */
  const SliderMin: int := 0
  const SliderMax: int := 7
  /** Where the reverse button wraps to below the first index (not `SliderMax`). */
  const ReverseWrap: int := 6

  /** The two step buttons, by their element id. */
  datatype Direction = Forward | Reverse

  /** The forward button: one index on, and past the last index back to the first. */
  function StepForward(index: int): int
  {
    var next := index + 1;
    if next > SliderMax then SliderMin else next
  }

  /** The reverse button: one index back, and below the first index on to `ReverseWrap`. */
  function StepReverse(index: int): int
  {
    var next := index - 1;
    if next < SliderMin then ReverseWrap else next
  }

  function Step(d: Direction, index: int): int
  {
    match d
    case Forward => StepForward(index)
    case Reverse => StepReverse(index)
  }

  /** `attributes[index]`; `None` is `undefined`. */
  function AttributeAt(attributes: seq<string>, index: int): (r: Option<string>)
    ensures r.Some? <==> 0 <= index < |attributes|
    ensures r.Some? ==> r.value == attributes[index]
  {
    if 0 <= index < |attributes| then Some(attributes[index]) else None
  }

  /** `n` presses of the same button starting from `index`. */
  function Steps(d: Direction, index: int, n: nat): int
    decreases n
  {
    if n == 0 then index else Steps(d, Step(d, index), n - 1)
  }

  /** Forward is the successor modulo eight on the slider's range. */
  lemma ForwardIsModular(index: int)
    requires SliderMin <= index <= SliderMax
    ensures SliderMin <= StepForward(index) <= SliderMax
    ensures StepForward(index) == (index + 1) % 8
    ensures index < SliderMax ==> StepForward(index) == index + 1
    ensures StepForward(SliderMax) == SliderMin
  {
  }

  /** `n` forward presses add `n` modulo eight. */
  lemma {:induction false} ForwardStepsModular(index: int, n: nat)
    requires SliderMin <= index <= SliderMax
    ensures Steps(Forward, index, n) == (index + n) % 8
    decreases n
  {
    if n > 0 {
      ForwardIsModular(index);
      ForwardStepsModular(StepForward(index), n - 1);
      assert (index + 1) % 8 + (n - 1) == index + n || (index + 1) % 8 == 0;
    }
  }

  /** Eight forward presses return to where they started. */
  lemma ForwardCycle(index: int)
    requires SliderMin <= index <= SliderMax
    ensures Steps(Forward, index, 8) == index
    ensures forall n: nat :: 0 < n < 8 ==> Steps(Forward, index, n) != index
  {
    ForwardStepsModular(index, 8);
    forall n: nat | 0 < n < 8 ensures Steps(Forward, index, n) != index {
      ForwardStepsModular(index, n);
    }
  }

  /** Reverse steps back by one, except that it wraps from the first index to 6 and never yields 7. */
  lemma ReverseRange(index: int)
    requires SliderMin <= index <= SliderMax
    ensures SliderMin <= StepReverse(index) <= ReverseWrap
    ensures StepReverse(index) != SliderMax
    ensures index > SliderMin ==> StepReverse(index) == index - 1
    ensures StepReverse(SliderMin) == 6
  {
  }

  /** On 0..6 reverse presses subtract modulo seven: index 7 is left out of the reverse cycle. */
  lemma {:induction false} ReverseStepsModular(index: int, n: nat)
    requires SliderMin <= index <= ReverseWrap
    ensures Steps(Reverse, index, n) == (index - n) % 7
    decreases n
  {
    if n > 0 {
      ReverseStepsModular(StepReverse(index), n - 1);
      if index == 0 {
        assert (6 - (n - 1)) % 7 == (0 - n) % 7;
      }
    }
  }

  /**
   * Pressing reverse repeatedly cycles through seven indices, with period
   * seven, and never reaches the last slider position again.
   */
  lemma ReverseCycle(index: int, n: nat)
    requires SliderMin <= index <= SliderMax
    ensures index <= ReverseWrap ==> Steps(Reverse, index, 7) == index
    ensures n > 0 ==> Steps(Reverse, index, n) != SliderMax
  {
    if index <= ReverseWrap {
      ReverseStepsModular(index, 7);
    }
    if n > 0 {
      ReverseRange(index);
      ReverseStepsModular(StepReverse(index), n - 1);
    }
  }

  /**
   * Reverse undoes forward everywhere except at the last index: from 7,
   * forward then reverse gives 6. Forward undoes reverse except at 0.
   */
  lemma ForwardReverseAsymmetry(index: int)
    requires SliderMin <= index <= SliderMax
    ensures index < SliderMax ==> StepReverse(StepForward(index)) == index
    ensures StepReverse(StepForward(SliderMax)) == 6
    ensures index > SliderMin ==> StepForward(StepReverse(index)) == index
    ensures StepForward(StepReverse(SliderMin)) == SliderMax
  {
  }

  /** The slider with its two buttons, reduced to the state the handlers read and write. */
  class SequenceControl {
    /** The attribute list the handlers index into. */
    const attributes: seq<string>
    /** The slider's value: the index of the displayed attribute. */
    var index: int

    /** The browser keeps a range input's value within its bounds. */
    ghost predicate Valid()
      reads this
    {
      SliderMin <= index <= SliderMax
    }

    /** The slider as `createSequenceControls` initialises it (value 0). */
    constructor (attributes: seq<string>)
      ensures Valid()
      ensures this.attributes == attributes && index == SliderMin
    {
      this.attributes := attributes;
      index := SliderMin;
    }

    /**
     * A click on a step button: the new index is written back to the slider
     * and the attribute at it is the one the symbols are updated to.
     */
    method Click(d: Direction) returns (attribute: Option<string>)
      requires Valid()
      modifies this
      ensures Valid()
      ensures index == Step(d, old(index))
      ensures attribute == AttributeAt(attributes, index)
    {
      var i := index;
      match d {
        case Forward =>
          i := i + 1;
          i := if i > SliderMax then SliderMin else i;
        case Reverse =>
          i := i - 1;
          i := if i < SliderMin then ReverseWrap else i;
      }
      index := i;
      attribute := AttributeAt(attributes, index);
    }

    /** The user drags the slider to `value`; the attribute at it is displayed. */
    method Input(value: int) returns (attribute: Option<string>)
      requires SliderMin <= value <= SliderMax
      modifies this
      ensures Valid()
      ensures index == value
      ensures attribute == AttributeAt(attributes, value)
    {
      index := value;
      attribute := AttributeAt(attributes, index);
    }
  }
}
