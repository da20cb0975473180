/** The DMX effects of the Art-Net sender: each effect renders one
    512-channel universe for a point in time.  The lights are laid out as
    consecutive segments of five channels: an intensity channel followed by
    four colour channels.  Channel values are the unsigned octets that
    leave the process.

    `Math.sin` and `ColorUtil.hsvToRgb` are parameters (`sin`, `hsv`); the
    properties that need the range of the sine say so with `SineBounded`. */
module Effects {
  import opened Jvm

  /** `EffectManager.DMX_UNIVERSE_SIZE`. */
  const DmxUniverseSize: int := 512
  /** Channels per light segment. */
  const SegmentWidth: int := 5
  /** Segments whose five channels all lie inside the universe. */
  const FittingSegments: int := 102
  /** The `intensity` field of the running, pulse and colour-ramp effects. */
  const Intensity: real := 255.0
  /** `baseCycleMs`: one step of the running light at speed 1. */
  const BaseCycleMs: real := 1000.0

  datatype Effect =
    | StaticColor(dimmer: real, r: int, g: int, b: int, w: int, lightCount: int)
    | Running(speed: real, lightCount: int)
    | Pulse(speed: real, offset: real, lightCount: int)
    | ColorRamp(speed: real, lightCount: int)

  /** What `render(time)` produces: a universe, or the exception it raises. */
  datatype RenderResult =
    | Frame(dmx: seq<int>)
    | DivisionByZero
    | IndexOutOfBounds

  /** What every effect constructor guarantees about the stored light count. */
  predicate WellFormed(e: Effect) {
    0 <= e.lightCount <= DmxUniverseSize
  }

  ghost predicate SineBounded(sin: real -> real) {
    forall x :: -1.0 <= sin(x) <= 1.0
  }

  // ---------------------------------------------------------------------
  // Construction

  function NewStaticColor(dimmer: real, r: int, g: int, b: int, w: int, lightCount: int): (e: Effect)
    ensures e.StaticColor? && WellFormed(e)
    ensures e.dimmer == dimmer && e.r == r && e.g == g && e.b == b && e.w == w
    ensures 0 <= lightCount <= DmxUniverseSize ==> e.lightCount == lightCount
    ensures lightCount < 0 ==> e.lightCount == 0
    ensures DmxUniverseSize < lightCount ==> e.lightCount == DmxUniverseSize
  {
    StaticColor(dimmer, r, g, b, w, ClampInt(lightCount, 0, DmxUniverseSize))
  }

  /** The offset argument is accepted and dropped. */
  function NewRunning(speed: real, offset: real, lightCount: int): (e: Effect)
    ensures e.Running? && WellFormed(e) && e.speed == speed
    ensures 0 <= lightCount <= DmxUniverseSize ==> e.lightCount == lightCount
    ensures lightCount < 0 ==> e.lightCount == 0
    ensures DmxUniverseSize < lightCount ==> e.lightCount == DmxUniverseSize
  {
    Running(speed, ClampInt(lightCount, 0, DmxUniverseSize))
  }

  function NewPulse(speed: real, offset: real, lightCount: int): (e: Effect)
    ensures e.Pulse? && WellFormed(e) && e.speed == speed && e.offset == offset
    ensures 0 <= lightCount <= DmxUniverseSize ==> e.lightCount == lightCount
    ensures lightCount < 0 ==> e.lightCount == 0
    ensures DmxUniverseSize < lightCount ==> e.lightCount == DmxUniverseSize
  {
    Pulse(speed, offset, ClampInt(lightCount, 0, DmxUniverseSize))
  }

  function NewColorRamp(speed: real, lightCount: int): (e: Effect)
    ensures e.ColorRamp? && WellFormed(e) && e.speed == speed
    ensures 0 <= lightCount <= DmxUniverseSize ==> e.lightCount == lightCount
    ensures lightCount < 0 ==> e.lightCount == 0
    ensures DmxUniverseSize < lightCount ==> e.lightCount == DmxUniverseSize
  {
    ColorRamp(speed, ClampInt(lightCount, 0, DmxUniverseSize))
  }

  lemma RunningIgnoresOffset(speed: real, o1: real, o2: real, lightCount: int)
    ensures NewRunning(speed, o1, lightCount) == NewRunning(speed, o2, lightCount)
  {
  }

  /** The DMX address of channel `channel` of light segment `segment`. */
  function Address(segment: int, channel: int): int {
    segment * SegmentWidth + channel
  }

  // ---------------------------------------------------------------------
  // Timing shared by the running light and the colour ramp

  /** `(long) cycleMs`, the divisor of `time % (long) cycleMs`.  At speed 0
      the cycle is infinitely long and the cast yields `Long.MAX_VALUE`. */
  function CycleDivisor(speed: real): int {
    if speed == 0.0 then LongMax else Trunc(BaseCycleMs / speed)
  }

  /** `(long) (time / cycleMs)`: how many whole cycles have elapsed. */
  function StepIndex(speed: real, time: int): int {
    if speed == 0.0 then 0 else Trunc(time as real / (BaseCycleMs / speed))
  }

  /** The position inside the current cycle. */
  function LocalT(speed: real, time: int): real
    requires CycleDivisor(speed) != 0
  {
    if speed == 0.0 then 0.0
    else Rem(time, CycleDivisor(speed)) as real / (BaseCycleMs / speed)
  }

  /** `sin(localT * PI)` with negative values raised to 0. */
  function Fade(sin: real -> real, speed: real, time: int): real
    requires CycleDivisor(speed) != 0
  {
    MaxReal(sin(LocalT(speed, time) * MathPi), 0.0)
  }

  function FadeValue(sin: real -> real, speed: real, time: int): int
    requires CycleDivisor(speed) != 0
  {
    Round(Fade(sin, speed, time) * 255.0)
  }

  /** `(int) (stepIndex % lightCount)`. */
  function ActiveSegment(speed: real, lightCount: int, time: int): int
    requires lightCount != 0
  {
    Rem(StepIndex(speed, time), lightCount)
  }

  /** Either cycle computation of the running light and the colour ramp
      divides by zero exactly when this holds. */
  predicate CycleFaults(speed: real, lightCount: int) {
    lightCount == 0 || CycleDivisor(speed) == 0
  }

  // ---------------------------------------------------------------------
  // Frames

  function StaticChannel(e: Effect, channel: int): int
    requires e.StaticColor?
  {
    if channel == 0 then ByteOfDouble(ClampReal(e.dimmer, 0.0, 255.0))
    else if channel == 1 then LowByte(e.r)
    else if channel == 2 then LowByte(e.g)
    else if channel == 3 then LowByte(e.b)
    else LowByte(e.w)
  }

  function StaticFrame(e: Effect): seq<int>
    requires e.StaticColor?
  {
    seq(DmxUniverseSize, i requires 0 <= i < DmxUniverseSize =>
      if i < SegmentWidth * e.lightCount then StaticChannel(e, i % SegmentWidth) else 0)
  }

  function RunningFrame(lightCount: int, active: int, fadeValue: int): seq<int> {
    seq(DmxUniverseSize, i requires 0 <= i < DmxUniverseSize =>
      if i < SegmentWidth * lightCount && i / SegmentWidth == active then
        (if i % SegmentWidth == 0 then ByteOfDouble(Intensity) else LowByte(fadeValue))
      else 0)
  }

  /** The sine argument of a pulse segment: seconds elapsed plus the
      segment's offset, scaled by the speed. */
  function PulsePhase(e: Effect, time: int, segment: int): real
    requires e.Pulse?
  {
    (time as real * 0.001 + e.offset * segment as real) * e.speed
  }

  /** The four colour channels of one pulse segment. */
  function PulseLevel(e: Effect, sin: real -> real, time: int, segment: int): int
    requires e.Pulse?
  {
    LowByte(Round(sin(PulsePhase(e, time, segment)) * 127.0) + 127)
  }

  function PulseFrame(e: Effect, sin: real -> real, time: int): seq<int>
    requires e.Pulse?
  {
    seq(DmxUniverseSize, i requires 0 <= i < DmxUniverseSize =>
      if i < SegmentWidth * e.lightCount then
        (if i % SegmentWidth == 0 then ByteOfDouble(Intensity) else PulseLevel(e, sin, time, i / SegmentWidth))
      else 0)
  }

  /** The hue handed to `hsvToRgb`: the fade scaled to 0..360 degrees. */
  function Hue(sin: real -> real, speed: real, time: int): real
    requires CycleDivisor(speed) != 0
  {
    Round(Fade(sin, speed, time) * 360.0) as real
  }

  /** A lit colour-ramp segment: intensity, then red, green and blue of the
      hue, and the white channel held at 0. */
  function RampChannel(rgb: (real, real, real), channel: int): int {
    if channel == 0 then ByteOfDouble(Intensity)
    else if channel == 1 then ByteOfDouble(rgb.0)
    else if channel == 2 then ByteOfDouble(rgb.1)
    else if channel == 3 then ByteOfDouble(rgb.2)
    else 0
  }

  /** A lit colour-ramp segment as ColorRampEffect.java writes it: the red
      value is overwritten by 0 and the white channel is never written. */
  function RampChannelAsWritten(rgb: (real, real, real), channel: int): int {
    if channel == 0 then ByteOfDouble(Intensity)
    else if channel == 1 then 0
    else if channel == 2 then ByteOfDouble(rgb.1)
    else if channel == 3 then ByteOfDouble(rgb.2)
    else 0
  }

  function RampFrame(lightCount: int, active: int, rgb: (real, real, real)): seq<int> {
    seq(DmxUniverseSize, i requires 0 <= i < DmxUniverseSize =>
      if i < SegmentWidth * lightCount && i / SegmentWidth == active then RampChannel(rgb, i % SegmentWidth)
      else 0)
  }

  function RampFrameAsWritten(lightCount: int, active: int, rgb: (real, real, real)): seq<int> {
    seq(DmxUniverseSize, i requires 0 <= i < DmxUniverseSize =>
      if i < SegmentWidth * lightCount && i / SegmentWidth == active then RampChannelAsWritten(rgb, i % SegmentWidth)
      else 0)
  }

  // ---------------------------------------------------------------------
  // Render results

  function StaticRender(e: Effect): RenderResult
    requires e.StaticColor?
  {
    if e.lightCount > FittingSegments then IndexOutOfBounds else Frame(StaticFrame(e))
  }

  function RunningRender(e: Effect, sin: real -> real, time: int): RenderResult
    requires e.Running?
  {
    if CycleFaults(e.speed, e.lightCount) then DivisionByZero
    else if e.lightCount > FittingSegments then IndexOutOfBounds
    else Frame(RunningFrame(e.lightCount, ActiveSegment(e.speed, e.lightCount, time), FadeValue(sin, e.speed, time)))
  }

  function PulseRender(e: Effect, sin: real -> real, time: int): RenderResult
    requires e.Pulse?
  {
    if e.lightCount > FittingSegments then IndexOutOfBounds else Frame(PulseFrame(e, sin, time))
  }

  function RampRender(e: Effect, sin: real -> real, hsv: real -> (real, real, real), time: int): RenderResult
    requires e.ColorRamp?
  {
    if CycleFaults(e.speed, e.lightCount) then DivisionByZero
    else if e.lightCount > FittingSegments then IndexOutOfBounds
    else Frame(RampFrame(e.lightCount, ActiveSegment(e.speed, e.lightCount, time), hsv(Hue(sin, e.speed, time))))
  }

  function RampRenderAsWritten(e: Effect, sin: real -> real, hsv: real -> (real, real, real), time: int): RenderResult
    requires e.ColorRamp?
  {
    if CycleFaults(e.speed, e.lightCount) then DivisionByZero
    else if e.lightCount > FittingSegments then IndexOutOfBounds
    else Frame(RampFrameAsWritten(e.lightCount, ActiveSegment(e.speed, e.lightCount, time), hsv(Hue(sin, e.speed, time))))
  }

  /** `Effect.render(time)`, dispatched on the kind of effect. */
  function RenderSpec(e: Effect, sin: real -> real, hsv: real -> (real, real, real), time: int): RenderResult {
    match e
    case StaticColor(_, _, _, _, _, _) => StaticRender(e)
    case Running(_, _) => RunningRender(e, sin, time)
    case Pulse(_, _, _) => PulseRender(e, sin, time)
    case ColorRamp(_, _) => RampRender(e, sin, hsv, time)
  }

  // ---------------------------------------------------------------------
  // The renderers

  /** Channel `channel` of segment `segment` sits at `segment * 5 + channel`. */
  lemma ChannelPosition(segment: int, channel: int)
    requires 0 <= channel < SegmentWidth
    ensures (segment * SegmentWidth + channel) / SegmentWidth == segment
    ensures (segment * SegmentWidth + channel) % SegmentWidth == channel
  {
  }

  /** A static segment in the frame: the dimmer, then the four colours. */
  lemma StaticSegment(e: Effect, segment: int)
    requires e.StaticColor? && 0 <= segment < e.lightCount && (segment + 1) * SegmentWidth <= DmxUniverseSize
    ensures forall i :: segment * SegmentWidth <= i < segment * SegmentWidth + SegmentWidth ==>
      StaticFrame(e)[i] == StaticChannel(e, i - segment * SegmentWidth)
  {
    forall i | segment * SegmentWidth <= i < segment * SegmentWidth + SegmentWidth
      ensures StaticFrame(e)[i] == StaticChannel(e, i - segment * SegmentWidth)
    {
      ChannelPosition(segment, i - segment * SegmentWidth);
      assert i < SegmentWidth * e.lightCount;
    }
  }

  method RenderStatic(e: Effect, time: int) returns (r: RenderResult)
    requires e.StaticColor?
    ensures r == StaticRender(e)
  {
    ghost var frame := StaticFrame(e);
    var dmxOut := new int[DmxUniverseSize](_ => 0);
    var segmentId := 0;
    while segmentId < e.lightCount
      invariant 0 <= segmentId && (segmentId == 0 || segmentId <= e.lightCount)
      invariant SegmentWidth * segmentId <= DmxUniverseSize
      invariant forall i :: 0 <= i < SegmentWidth * segmentId ==> dmxOut[i] == frame[i]
      invariant forall i :: SegmentWidth * segmentId <= i < DmxUniverseSize ==> dmxOut[i] == 0
    {
      var base := segmentId * SegmentWidth;
      if base + SegmentWidth > DmxUniverseSize {
        // the segment's last channel lies past the end of the buffer
        return IndexOutOfBounds;
      }
      dmxOut[base] := ByteOfDouble(ClampReal(e.dimmer, 0.0, 255.0));
      dmxOut[base + 1] := LowByte(e.r);
      dmxOut[base + 2] := LowByte(e.g);
      dmxOut[base + 3] := LowByte(e.b);
      dmxOut[base + 4] := LowByte(e.w);
      StaticSegment(e, segmentId);
      segmentId := segmentId + 1;
    }
    assert dmxOut[..] == frame;
    return Frame(dmxOut[..]);
  }

  /** A running-light segment in the frame: lit when it is the active one,
      dark otherwise. */
  lemma RunningSegment(lightCount: int, active: int, fadeValue: int, segment: int)
    requires 0 <= segment < lightCount && (segment + 1) * SegmentWidth <= DmxUniverseSize
    ensures forall i :: segment * SegmentWidth <= i < segment * SegmentWidth + SegmentWidth ==>
      RunningFrame(lightCount, active, fadeValue)[i] ==
        if segment != active then 0
        else if i == segment * SegmentWidth then ByteOfDouble(Intensity)
        else LowByte(fadeValue)
  {
    forall i | segment * SegmentWidth <= i < segment * SegmentWidth + SegmentWidth
      ensures RunningFrame(lightCount, active, fadeValue)[i] ==
        if segment != active then 0
        else if i == segment * SegmentWidth then ByteOfDouble(Intensity)
        else LowByte(fadeValue)
    {
      ChannelPosition(segment, i - segment * SegmentWidth);
      assert i < SegmentWidth * lightCount;
    }
  }

  method RenderRunning(e: Effect, sin: real -> real, time: int) returns (r: RenderResult)
    requires e.Running?
    ensures r == RunningRender(e, sin, time)
  {
    if e.lightCount == 0 {
      return DivisionByZero;
    }
    var activeSegment := Rem(StepIndex(e.speed, time), e.lightCount);
    if CycleDivisor(e.speed) == 0 {
      return DivisionByZero;
    }
    var fade := sin(LocalT(e.speed, time) * MathPi);
    if fade < 0.0 {
      fade := 0.0;
    }
    var fadeValue := Round(fade * 255.0);
    ghost var frame := RunningFrame(e.lightCount, activeSegment, fadeValue);

    var dmxOut := new int[DmxUniverseSize](_ => 0);
    var segmentId := 0;
    while segmentId < e.lightCount
      invariant 0 <= segmentId && (segmentId == 0 || segmentId <= e.lightCount)
      invariant SegmentWidth * segmentId <= DmxUniverseSize
      invariant forall i :: 0 <= i < SegmentWidth * segmentId ==> dmxOut[i] == frame[i]
      invariant forall i :: SegmentWidth * segmentId <= i < DmxUniverseSize ==> dmxOut[i] == 0
    {
      var base := segmentId * SegmentWidth;
      if base + SegmentWidth > DmxUniverseSize {
        return IndexOutOfBounds;
      }
      var value := if segmentId == activeSegment then LowByte(fadeValue) else 0;
      dmxOut[base] := if segmentId == activeSegment then ByteOfDouble(Intensity) else 0;
      var channelOffset := 1;
      while channelOffset < SegmentWidth
        invariant 1 <= channelOffset <= SegmentWidth
        invariant forall i :: 0 <= i < base ==> dmxOut[i] == frame[i]
        invariant dmxOut[base] == if segmentId == activeSegment then ByteOfDouble(Intensity) else 0
        invariant forall i :: base < i < base + channelOffset ==> dmxOut[i] == value
        invariant forall i :: base + channelOffset <= i < DmxUniverseSize ==> dmxOut[i] == 0
      {
        dmxOut[base + channelOffset] := value;
        channelOffset := channelOffset + 1;
      }
      RunningSegment(e.lightCount, activeSegment, fadeValue, segmentId);
      segmentId := segmentId + 1;
    }
    assert dmxOut[..] == frame;
    return Frame(dmxOut[..]);
  }

  /** A lit pulse segment in the frame: the full intensity, then the
      segment's level on each colour channel. */
  lemma PulseSegment(e: Effect, sin: real -> real, time: int, segment: int)
    requires e.Pulse? && 0 <= segment < e.lightCount && (segment + 1) * SegmentWidth <= DmxUniverseSize
    ensures forall i :: segment * SegmentWidth <= i < segment * SegmentWidth + SegmentWidth ==>
      PulseFrame(e, sin, time)[i] ==
        if i == segment * SegmentWidth then ByteOfDouble(Intensity) else PulseLevel(e, sin, time, segment)
  {
    forall i | segment * SegmentWidth <= i < segment * SegmentWidth + SegmentWidth
      ensures PulseFrame(e, sin, time)[i] ==
        if i == segment * SegmentWidth then ByteOfDouble(Intensity) else PulseLevel(e, sin, time, segment)
    {
      ChannelPosition(segment, i - segment * SegmentWidth);
      assert i < SegmentWidth * e.lightCount;
    }
  }

  method RenderPulse(e: Effect, sin: real -> real, time: int) returns (r: RenderResult)
    requires e.Pulse?
    ensures r == PulseRender(e, sin, time)
  {
    ghost var frame := PulseFrame(e, sin, time);
    var dmxOut := new int[DmxUniverseSize](_ => 0);
    var segmentId := 0;
    while segmentId < e.lightCount
      invariant 0 <= segmentId && (segmentId == 0 || segmentId <= e.lightCount)
      invariant SegmentWidth * segmentId <= DmxUniverseSize
      invariant forall i :: 0 <= i < SegmentWidth * segmentId ==> dmxOut[i] == frame[i]
      invariant forall i :: SegmentWidth * segmentId <= i < DmxUniverseSize ==> dmxOut[i] == 0
    {
      var base := segmentId * SegmentWidth;
      if base + SegmentWidth > DmxUniverseSize {
        return IndexOutOfBounds;
      }
      dmxOut[base] := ByteOfDouble(Intensity);
      var channelOffset := 1;
      while channelOffset < SegmentWidth
        invariant 1 <= channelOffset <= SegmentWidth
        invariant forall i :: 0 <= i < base ==> dmxOut[i] == frame[i]
        invariant dmxOut[base] == ByteOfDouble(Intensity)
        invariant forall i :: base < i < base + channelOffset ==> dmxOut[i] == PulseLevel(e, sin, time, segmentId)
        invariant forall i :: base + channelOffset <= i < DmxUniverseSize ==> dmxOut[i] == 0
      {
        var level := PulseLevel(e, sin, time, segmentId);
        dmxOut[base + channelOffset] := level;
        channelOffset := channelOffset + 1;
      }
      PulseSegment(e, sin, time, segmentId);
      segmentId := segmentId + 1;
    }
    assert dmxOut[..] == frame;
    return Frame(dmxOut[..]);
  }

  /** The colour ramp with the white channel, not the red one, cleared
      after the colour is written (RampFrameAsWritten has the source's
      order of writes). */
  method RenderColorRamp(e: Effect, sin: real -> real, hsv: real -> (real, real, real), time: int)
    returns (r: RenderResult)
    requires e.ColorRamp?
    ensures r == RampRender(e, sin, hsv, time)
  {
    if e.lightCount == 0 {
      return DivisionByZero;
    }
    var activeSegment := Rem(StepIndex(e.speed, time), e.lightCount);
    if CycleDivisor(e.speed) == 0 {
      return DivisionByZero;
    }
    var fade := sin(LocalT(e.speed, time) * MathPi);
    if fade < 0.0 {
      fade := 0.0;
    }
    var hue := Round(fade * 360.0) as real;
    r := FillRamp(e.lightCount, activeSegment, hsv, hue);
  }

  /** A colour-ramp segment in the frame: the colour channels when it is
      the active one, dark otherwise. */
  lemma RampSegment(lightCount: int, active: int, rgb: (real, real, real), segment: int)
    requires 0 <= segment < lightCount && (segment + 1) * SegmentWidth <= DmxUniverseSize
    ensures forall i :: segment * SegmentWidth <= i < segment * SegmentWidth + SegmentWidth ==>
      RampFrame(lightCount, active, rgb)[i] ==
        if segment == active then RampChannel(rgb, i - segment * SegmentWidth) else 0
  {
    forall i | segment * SegmentWidth <= i < segment * SegmentWidth + SegmentWidth
      ensures RampFrame(lightCount, active, rgb)[i] ==
        if segment == active then RampChannel(rgb, i - segment * SegmentWidth) else 0
    {
      ChannelPosition(segment, i - segment * SegmentWidth);
      assert i < SegmentWidth * lightCount;
    }
  }

  /** The segment loop of the colour ramp. */
  method FillRamp(lightCount: int, activeSegment: int, hsv: real -> (real, real, real), hue: real)
    returns (r: RenderResult)
    ensures r == if lightCount > FittingSegments then IndexOutOfBounds
                 else Frame(RampFrame(lightCount, activeSegment, hsv(hue)))
  {
    ghost var frame := RampFrame(lightCount, activeSegment, hsv(hue));
    var dmxOut := new int[DmxUniverseSize](_ => 0);
    var segmentId := 0;
    while segmentId < lightCount
      invariant 0 <= segmentId && (segmentId == 0 || segmentId <= lightCount)
      invariant SegmentWidth * segmentId <= DmxUniverseSize
      invariant forall i :: 0 <= i < SegmentWidth * segmentId ==> dmxOut[i] == frame[i]
      invariant forall i :: SegmentWidth * segmentId <= i < DmxUniverseSize ==> dmxOut[i] == 0
    {
      var base := segmentId * SegmentWidth;
      if base + SegmentWidth > DmxUniverseSize {
        return IndexOutOfBounds;
      }
      if segmentId == activeSegment {
        var rgb := hsv(hue);
        dmxOut[base] := ByteOfDouble(Intensity);
        dmxOut[base + 1] := ByteOfDouble(rgb.0);
        dmxOut[base + 2] := ByteOfDouble(rgb.1);
        dmxOut[base + 3] := ByteOfDouble(rgb.2);
        dmxOut[base + 4] := 0;
      } else {
        dmxOut[base] := 0;
        var channelOffset := 1;
        while channelOffset < SegmentWidth
          invariant 1 <= channelOffset <= SegmentWidth
          invariant forall i :: 0 <= i < base ==> dmxOut[i] == frame[i]
          invariant forall i :: base <= i < DmxUniverseSize ==> dmxOut[i] == 0
        {
          dmxOut[base + channelOffset] := 0;
          channelOffset := channelOffset + 1;
        }
      }
      RampSegment(lightCount, activeSegment, hsv(hue), segmentId);
      segmentId := segmentId + 1;
    }
    assert dmxOut[..] == frame;
    return Frame(dmxOut[..]);
  }

  /** `curEffect.render(time)`. */
  method Render(e: Effect, sin: real -> real, hsv: real -> (real, real, real), time: int)
    returns (r: RenderResult)
    ensures r == RenderSpec(e, sin, hsv, time)
  {
    match e
    case StaticColor(_, _, _, _, _, _) => r := RenderStatic(e, time);
    case Running(_, _) => r := RenderRunning(e, sin, time);
    case Pulse(_, _, _) => r := RenderPulse(e, sin, time);
    case ColorRamp(_, _) => r := RenderColorRamp(e, sin, hsv, time);
  }

  // ---------------------------------------------------------------------
  // Properties of the frames

  /** Every render either fails or yields a full universe whose channels
      past the configured lights are dark. */
  lemma DarkBeyondLights(e: Effect, sin: real -> real, hsv: real -> (real, real, real), time: int)
    requires RenderSpec(e, sin, hsv, time).Frame?
    ensures |RenderSpec(e, sin, hsv, time).dmx| == DmxUniverseSize
    ensures forall i :: 0 <= i < DmxUniverseSize && SegmentWidth * e.lightCount <= i ==> RenderSpec(e, sin, hsv, time).dmx[i] == 0
    ensures forall i :: 0 <= i < DmxUniverseSize ==> 0 <= RenderSpec(e, sin, hsv, time).dmx[i] < 256
  {
  }

  /** The static colour and the pulse fail only when the lights overrun the
      universe; the running light and the colour ramp also fail when the
      cycle arithmetic divides by zero. */
  lemma RenderFaults(e: Effect, sin: real -> real, hsv: real -> (real, real, real), time: int)
    ensures (e.StaticColor? || e.Pulse?) ==>
      (RenderSpec(e, sin, hsv, time) == IndexOutOfBounds <==> e.lightCount > FittingSegments)
    ensures (e.StaticColor? || e.Pulse?) ==> !RenderSpec(e, sin, hsv, time).DivisionByZero?
    ensures (e.Running? || e.ColorRamp?) ==>
      (RenderSpec(e, sin, hsv, time) == DivisionByZero <==> CycleFaults(e.speed, e.lightCount))
    ensures (e.Running? || e.ColorRamp?) ==>
      (RenderSpec(e, sin, hsv, time) == IndexOutOfBounds <==>
        !CycleFaults(e.speed, e.lightCount) && e.lightCount > FittingSegments)
  {
  }

  /** A cycle shorter than one millisecond truncates to a zero divisor:
      `(long) cycleMs == 0` exactly when the speed exceeds 1000 in size. */
  lemma {:induction false} CycleDivisorZero(speed: real)
    ensures CycleDivisor(speed) == 0 <==> (speed > 1000.0 || speed < -1000.0)
    ensures 0.0 < speed <= 1000.0 ==> CycleDivisor(speed) >= 1
  {
    if speed != 0.0 {
      var c := BaseCycleMs / speed;
      assert c * speed == 1000.0;
    }
  }

  /** The channels the running light and the colour ramp fade stay in
      0..255, so the byte cast leaves them unchanged. */
  lemma {:induction false} FadeValueInRange(sin: real -> real, speed: real, time: int)
    requires SineBounded(sin) && CycleDivisor(speed) != 0
    ensures 0 <= FadeValue(sin, speed, time) <= 255
    ensures LowByte(FadeValue(sin, speed, time)) == FadeValue(sin, speed, time)
    ensures 0.0 <= Hue(sin, speed, time) <= 360.0
  {
    var x := LocalT(speed, time) * MathPi;
    assert -1.0 <= sin(x) <= 1.0;
    var f := Fade(sin, speed, time);
    assert 0.0 <= f <= 1.0;
    assert 0.0 <= f * 255.0 <= 255.0;
    assert 0.0 <= f * 360.0 <= 360.0;
  }

  /** The colour channels of a pulse stay in 0..254: the rounded sine
      lies in -127..127 before the offset of 127 is added. */
  lemma {:induction false} PulseLevelInRange(e: Effect, sin: real -> real, time: int, segment: int)
    requires e.Pulse? && SineBounded(sin)
    ensures 0 <= PulseLevel(e, sin, time, segment) <= 254
    ensures PulseLevel(e, sin, time, segment) == Round(sin(PulsePhase(e, time, segment)) * 127.0) + 127
  {
    var v := sin(PulsePhase(e, time, segment));
    assert -1.0 <= v <= 1.0;
    assert -127.0 <= v * 127.0 <= 127.0;
  }

  /** `(long) (time / cycleMs)` is never negative while time and speed are not. */
  lemma {:induction false} StepIndexNonNegative(speed: real, time: int)
    requires 0 <= time && 0.0 <= speed
    ensures 0 <= StepIndex(speed, time)
  {
    if speed != 0.0 {
      var c := BaseCycleMs / speed;
      assert c > 0.0;
      assert time as real / c >= 0.0;
    }
  }

  /** The running light lights exactly one of its segments: the active one
      carries full intensity and the fade on its colour channels, every
      other segment is dark. */
  lemma {:induction false} RunningLightsOneSegment(e: Effect, sin: real -> real, time: int)
    requires e.Running? && WellFormed(e) && RunningRender(e, sin, time).Frame?
    requires 0 <= time && 0.0 <= e.speed && SineBounded(sin)
    ensures 0 <= ActiveSegment(e.speed, e.lightCount, time) < e.lightCount
    ensures forall s, k :: 0 <= s < e.lightCount && 0 <= k < SegmentWidth ==>
      RunningRender(e, sin, time).dmx[Address(s, k)] ==
        (if s != ActiveSegment(e.speed, e.lightCount, time) then 0
         else if k == 0 then 255
         else FadeValue(sin, e.speed, time))
  {
    StepIndexNonNegative(e.speed, time);
    FadeValueInRange(sin, e.speed, time);
    var active := ActiveSegment(e.speed, e.lightCount, time);
    var dmx := RunningRender(e, sin, time).dmx;
    forall s, k | 0 <= s < e.lightCount && 0 <= k < SegmentWidth
      ensures dmx[Address(s, k)] ==
        (if s != active then 0 else if k == 0 then 255 else FadeValue(sin, e.speed, time))
    {
      ChannelPosition(s, k);
    }
  }

  /** Every lit pulse segment carries full intensity and, on all four
      colour channels, the level of its own phase. */
  lemma {:induction false} PulseSegments(e: Effect, sin: real -> real, time: int)
    requires e.Pulse? && PulseRender(e, sin, time).Frame?
    ensures forall s, k :: 0 <= s < e.lightCount && 0 <= k < SegmentWidth ==>
      PulseRender(e, sin, time).dmx[Address(s, k)] ==
        (if k == 0 then 255 else PulseLevel(e, sin, time, s))
  {
    var dmx := PulseRender(e, sin, time).dmx;
    forall s, k | 0 <= s < e.lightCount && 0 <= k < SegmentWidth
      ensures dmx[Address(s, k)] == (if k == 0 then 255 else PulseLevel(e, sin, time, s))
    {
      ChannelPosition(s, k);
    }
  }

  /** A static colour repeats the same five channels on every light and
      does not depend on the time. */
  lemma {:induction false} StaticSegments(e: Effect, sin: real -> real, hsv: real -> (real, real, real), t1: int, t2: int)
    requires e.StaticColor? && StaticRender(e).Frame?
    ensures RenderSpec(e, sin, hsv, t1) == RenderSpec(e, sin, hsv, t2)
    ensures forall s, k :: 0 <= s < e.lightCount && 0 <= k < SegmentWidth ==>
      StaticRender(e).dmx[Address(s, k)] == StaticChannel(e, k)
  {
    var dmx := StaticRender(e).dmx;
    forall s, k | 0 <= s < e.lightCount && 0 <= k < SegmentWidth
      ensures dmx[Address(s, k)] == StaticChannel(e, k)
    {
      ChannelPosition(s, k);
    }
  }

  /** The colour ramp's active segment carries the hue's red, green and
      blue with the white channel dark. */
  lemma {:induction false} RampCarriesHue(e: Effect, sin: real -> real, hsv: real -> (real, real, real), time: int)
    requires e.ColorRamp? && RampRender(e, sin, hsv, time).Frame?
    ensures forall s, k :: 0 <= s < e.lightCount && 0 <= k < SegmentWidth ==>
      RampRender(e, sin, hsv, time).dmx[Address(s, k)] ==
        (if s != ActiveSegment(e.speed, e.lightCount, time) then 0
         else RampChannel(hsv(Hue(sin, e.speed, time)), k))
  {
    var dmx := RampRender(e, sin, hsv, time).dmx;
    var active := ActiveSegment(e.speed, e.lightCount, time);
    forall s, k | 0 <= s < e.lightCount && 0 <= k < SegmentWidth
      ensures dmx[Address(s, k)] ==
        (if s != active then 0 else RampChannel(hsv(Hue(sin, e.speed, time)), k))
    {
      ChannelPosition(s, k);
    }
  }

  /** As written, the colour ramp never lets the red of the hue through. */
  lemma {:induction false} RampAsWrittenDropsRed(e: Effect, sin: real -> real, hsv: real -> (real, real, real), time: int)
    requires e.ColorRamp? && RampRenderAsWritten(e, sin, hsv, time).Frame?
    ensures forall s :: 0 <= s < e.lightCount ==> RampRenderAsWritten(e, sin, hsv, time).dmx[Address(s, 1)] == 0
  {
    var dmx := RampRenderAsWritten(e, sin, hsv, time).dmx;
    forall s | 0 <= s < e.lightCount
      ensures dmx[Address(s, 1)] == 0
    {
      ChannelPosition(s, 1);
    }
  }

  /** At time 0 with a pure red hue the written and the intended colour ramp
      differ on the red channel of the first light. */
  lemma RampRedCounterexample()
    ensures var e := NewColorRamp(1.0, 1);
      var sin := (x: real) => 0.0;
      var hsv := (h: real) => (255.0, 0.0, 0.0);
      RampRenderAsWritten(e, sin, hsv, 0).dmx[1] == 0 &&
      RampRender(e, sin, hsv, 0).dmx[1] == 255
  {
    var e := NewColorRamp(1.0, 1);
    var sin := (x: real) => 0.0;
    var hsv := (h: real) => (255.0, 0.0, 0.0);
    CycleDivisorZero(1.0);
    assert ActiveSegment(e.speed, e.lightCount, 0) == 0;
    ChannelPosition(0, 1);
  }

  // ---------------------------------------------------------------------
  // Boundary cases

  /** With no lights the static colour and the pulse render a dark
      universe, while the running light and the colour ramp divide by zero. */
  lemma NoLights(e: Effect, sin: real -> real, hsv: real -> (real, real, real), time: int)
    requires e.lightCount == 0
    ensures (e.StaticColor? || e.Pulse?) ==> RenderSpec(e, sin, hsv, time) == Frame(seq(DmxUniverseSize, i => 0))
    ensures (e.Running? || e.ColorRamp?) ==> RenderSpec(e, sin, hsv, time) == DivisionByZero
  {
  }

  /** A request for 1000 lights is clamped to 512, which still does not fit:
      every kind of effect fails instead of rendering (the cycle effects at
      speed 1, where their arithmetic does not fault). */
  lemma {:induction false} ClampedCountOverruns(sin: real -> real, hsv: real -> (real, real, real), time: int)
    ensures StaticRender(NewStaticColor(100.0, 1, 2, 3, 4, 1000)) == IndexOutOfBounds
    ensures PulseRender(NewPulse(1.0, 0.0, 1000), sin, time) == IndexOutOfBounds
    ensures RunningRender(NewRunning(1.0, 0.0, 1000), sin, time) == IndexOutOfBounds
    ensures RampRender(NewColorRamp(1.0, 1000), sin, hsv, time) == IndexOutOfBounds
  {
    CycleDivisorZero(1.0);
  }

  /** At time 0 the running light's first segment is lit at intensity 255
      with its colour channels still dark, and nothing else is lit. */
  lemma {:induction false} RunningAtTimeZero(e: Effect, sin: real -> real)
    requires e.Running? && 1 <= e.lightCount <= FittingSegments && 0.0 < e.speed <= 1000.0
    requires sin(0.0) == 0.0
    ensures RunningRender(e, sin, 0).Frame?
    ensures RunningRender(e, sin, 0).dmx == seq(DmxUniverseSize, i => if i == 0 then 255 else 0)
  {
    CycleDivisorZero(e.speed);
    assert StepIndex(e.speed, 0) == 0;
    assert ActiveSegment(e.speed, e.lightCount, 0) == 0;
    assert LocalT(e.speed, 0) == 0.0;
    assert FadeValue(sin, e.speed, 0) == 0;
    var dmx := RunningRender(e, sin, 0).dmx;
    forall i | 0 <= i < DmxUniverseSize
      ensures dmx[i] == if i == 0 then 255 else 0
    {
    }
  }

  /** One pulse light at speed 1 and offset 0 shows level 127 at time 0. */
  lemma {:induction false} PulseAtTimeZero(sin: real -> real)
    requires sin(0.0) == 0.0
    ensures PulseRender(NewPulse(1.0, 0.0, 1), sin, 0).dmx[..SegmentWidth] == [255, 127, 127, 127, 127]
  {
    var e := NewPulse(1.0, 0.0, 1);
    assert PulsePhase(e, 0, 0) == 0.0;
    assert PulseLevel(e, sin, 0, 0) == 127;
  }

  /** Two static lights: dimmer 100 and colour 10, 20, 30, 40 on each,
      the rest of the universe dark. */
  lemma {:induction false} StaticColorTwoLights()
    ensures StaticRender(NewStaticColor(100.0, 10, 20, 30, 40, 2)) ==
      Frame([100, 10, 20, 30, 40, 100, 10, 20, 30, 40] + seq(DmxUniverseSize - 10, i => 0))
  {
    var e := NewStaticColor(100.0, 10, 20, 30, 40, 2);
    var want := [100, 10, 20, 30, 40, 100, 10, 20, 30, 40] + seq(DmxUniverseSize - 10, i => 0);
    var dmx := StaticFrame(e);
    assert ByteOfDouble(100.0) == 100;
    forall i | 0 <= i < DmxUniverseSize
      ensures dmx[i] == want[i]
    {
      if i < 10 {
        assert i % SegmentWidth == if i < 5 then i else i - 5;
      }
    }
    assert dmx == want;
  }
}
