/** The slider console: a fixed bank of range-checked channel levels. */
module Sliders {
  import opened Wrappers

  /** `Slider.CHANNEL_MAX_VALUE`. */
  const ChannelMaxValue: int := 255

  datatype Fault = IllegalArgument

  class Slider {
    const channelIndex: int
    var value: int

    constructor (channelIndex: int)
      ensures this.channelIndex == channelIndex && value == 0
    {
      this.channelIndex := channelIndex;
      value := 0;
    }

    method GetValue() returns (v: int)
      ensures v == value
    {
      return value;
    }

    /** Stores a level in 0..255 and answers it; any other level is
        refused and the stored one kept. */
    method SetValue(v: int) returns (r: Result<int, Fault>)
      modifies this
      ensures 0 <= v <= ChannelMaxValue ==> r == Success(v) && value == v
      ensures !(0 <= v <= ChannelMaxValue) ==> r == Failure(IllegalArgument) && value == old(value)
    {
      if v < 0 || v > ChannelMaxValue {
        return Failure(IllegalArgument);
      }
      value := v;
      return Success(value);
    }
  }

  class Console {
    var sliders: array<Slider>

    /** Slider `i` sits at index `i`, and no slider object appears twice. */
    ghost predicate Valid()
      reads this, sliders
    {
      (forall i :: 0 <= i < sliders.Length ==> sliders[i].channelIndex == i) &&
      (forall i, j :: 0 <= i < j < sliders.Length ==> sliders[i] != sliders[j])
    }

    /** The level of every slider, by channel. */
    ghost function Levels(): seq<int>
      reads this, sliders, sliders[..]
    {
      var bank := sliders;
      seq(bank.Length, i requires 0 <= i < bank.Length reads bank, bank[..] => bank[i].value)
    }

    /** Every slider holds a level the range check admits. */
    ghost predicate LevelsInRange()
      reads this, sliders, sliders[..]
    {
      forall i :: 0 <= i < |Levels()| ==> 0 <= Levels()[i] <= ChannelMaxValue
    }

    /** One slider per channel `0 .. numberOfChannels - 1`, all at level 0;
        a negative count gives no sliders. */
    constructor (numberOfChannels: int)
      ensures Valid() && fresh(sliders) && fresh(sliders[..])
      ensures sliders.Length == if numberOfChannels < 0 then 0 else numberOfChannels
      ensures Levels() == seq(sliders.Length, i => 0)
      ensures LevelsInRange()
    {
      var built: seq<Slider> := [];
      var i := 0;
      while i < numberOfChannels
        invariant 0 <= i && |built| == i
        invariant if numberOfChannels < 0 then i == 0 else i <= numberOfChannels
        invariant forall k :: 0 <= k < i ==> fresh(built[k]) && built[k].channelIndex == k && built[k].value == 0
        invariant forall j, k :: 0 <= j < k < i ==> built[j] != built[k]
      {
        var slider := new Slider(i);
        built := built + [slider];
        i := i + 1;
      }
      var bank := new Slider[|built|](k requires 0 <= k < |built| => built[k]);
      assert bank[..] == built;
      sliders := bank;
    }

    /** An index outside the bank answers empty; inside it the slider's
        own range check decides, and only that slider can change. */
    method SetSliderValueIfPossible(channelIndex: int, value: int) returns (r: Result<Option<int>, Fault>)
      requires Valid()
      modifies sliders[..]
      ensures Valid()
      ensures old(LevelsInRange()) ==> LevelsInRange()
      ensures !(0 <= channelIndex < sliders.Length) ==> r == Success(None) && Levels() == old(Levels())
      ensures 0 <= channelIndex < sliders.Length && 0 <= value <= ChannelMaxValue ==>
        r == Success(Some(value)) && Levels() == old(Levels())[channelIndex := value]
      ensures 0 <= channelIndex < sliders.Length && !(0 <= value <= ChannelMaxValue) ==>
        r == Failure(IllegalArgument) && Levels() == old(Levels())
    {
      if channelIndex < 0 || channelIndex >= sliders.Length {
        return Success(None);
      }
      var stored := sliders[channelIndex].SetValue(value);
      assert Levels() == old(Levels())[channelIndex := sliders[channelIndex].value];
      match stored
      case Success(v) => r := Success(Some(v));
      case Failure(f) => r := Failure(f);
    }

    /** A new array holding the same slider objects. */
    method GetSliderClone() returns (c: array<Slider>)
      ensures fresh(c) && c[..] == sliders[..]
    {
      var bank := sliders;
      c := new Slider[bank.Length](i requires 0 <= i < bank.Length reads bank => bank[i]);
    }
  }
}
