/** The realtime console: channels that each run a chain of effect
    functions into a 512-slot DMX buffer, a console that broadcasts every
    channel's buffer once per tick, and the builder that turns a stored
    effect definition into a sine effect. */
module Realtime {
  import opened Wrappers
  import opened Jvm

  /** The buffer every channel renders into. */
  const UniverseSize: int := 512

  datatype Fault = IndexOutOfBounds

  /** A sine generator writing one DMX address. */
  datatype SinusEffectFunc = SinusEffectFunc(dmxAddress: int, amplitudeScale: real, timeOffset: real)

  /** An entry of a channel's chain.  `ChannelDefault` is the
      `new SinusEffectFunc(1, 0)` the console installs on every channel;
      that two-argument constructor and the `EffectFunc` base class are not
      part of this model, so what an entry yields per tick is the parameter
      `run` of the tick operations. */
  datatype EffectFunc =
    | Sinus(sinus: SinusEffectFunc)
    | ChannelDefault

  /** `fx.runEffect(level, now, dt)`: the bytes an entry yields at one tick. */
  type Runner = (EffectFunc, real, int, int) -> seq<int>

  // ---------------------------------------------------------------------
  // Composing a chain

  /** `System.arraycopy(v, 0, buffer, 0, v.length)`. */
  function Paste(buffer: seq<int>, v: seq<int>): (r: seq<int>)
    requires |v| <= |buffer|
    ensures |r| == |buffer|
    ensures forall i :: 0 <= i < |v| ==> r[i] == v[i]
    ensures forall i :: |v| <= i < |buffer| ==> r[i] == buffer[i]
  {
    v + buffer[|v|..]
  }

  predicate AllFit(outputs: seq<seq<int>>) {
    forall j :: 0 <= j < |outputs| ==> |outputs[j]| <= UniverseSize
  }

  /** Zeros, then every output copied over the front of the buffer in turn. */
  function Composite(outputs: seq<seq<int>>): (r: seq<int>)
    requires AllFit(outputs)
    ensures |r| == UniverseSize
  {
    if outputs == [] then seq(UniverseSize, _ => 0)
    else Paste(Composite(outputs[..|outputs| - 1]), outputs[|outputs| - 1])
  }

  /** The last output long enough to reach slot `i`. */
  function LastCovering(outputs: seq<seq<int>>, i: int): (r: Option<nat>)
    ensures r.Some? ==> (r.value < |outputs| && i < |outputs[r.value]| &&
      forall j :: r.value < j < |outputs| ==> |outputs[j]| <= i)
    ensures r.None? ==> forall j :: 0 <= j < |outputs| ==> |outputs[j]| <= i
  {
    if outputs == [] then None
    else if i < |outputs[|outputs| - 1]| then Some(|outputs| - 1)
    else LastCovering(outputs[..|outputs| - 1], i)
  }

  /** Slot by slot, the composed buffer holds the value of the last output
      that reaches the slot, or 0 when none does: later effects win on the
      overlap. */
  lemma {:induction false} CompositeSlot(outputs: seq<seq<int>>, i: int)
    requires AllFit(outputs) && 0 <= i < UniverseSize
    ensures LastCovering(outputs, i).None? ==> Composite(outputs)[i] == 0
    ensures LastCovering(outputs, i).Some? ==> Composite(outputs)[i] == outputs[LastCovering(outputs, i).value][i]
  {
    if outputs != [] {
      var front := outputs[..|outputs| - 1];
      assert AllFit(front);
      if |outputs[|outputs| - 1]| <= i {
        CompositeSlot(front, i);
      }
    }
  }

  /** What the entries of a chain yield at one tick, in chain order. */
  function Outputs(chain: seq<EffectFunc>, level: real, now: int, dt: int, run: Runner): (r: seq<seq<int>>)
    ensures |r| == |chain|
    ensures forall j :: 0 <= j < |chain| ==> r[j] == run(chain[j], level, now, dt)
  {
    if chain == [] then []
    else Outputs(chain[..|chain| - 1], level, now, dt, run) + [run(chain[|chain| - 1], level, now, dt)]
  }

  /** `RealtimeChannel.tick`: a zeroed buffer with each entry's output
      copied over its front in chain order, or the exception `arraycopy`
      raises at the first output longer than the buffer. */
  function ChannelFrame(chain: seq<EffectFunc>, level: real, now: int, dt: int, run: Runner): (r: Result<seq<int>, Fault>)
    ensures r.Success? ==> |r.value| == UniverseSize
  {
    if chain == [] then Success(seq(UniverseSize, _ => 0))
    else
      match ChannelFrame(chain[..|chain| - 1], level, now, dt, run)
      case Failure(e) => Failure(e)
      case Success(buffer) =>
        var v := run(chain[|chain| - 1], level, now, dt);
        if |v| > UniverseSize then Failure(IndexOutOfBounds) else Success(Paste(buffer, v))
  }

  /** The channel frame fails exactly when some entry yields more than 512
      bytes; otherwise it is the composite of all outputs. */
  lemma {:induction false} ChannelFrameComposite(chain: seq<EffectFunc>, level: real, now: int, dt: int, run: Runner)
    ensures var outputs := Outputs(chain, level, now, dt, run);
      ChannelFrame(chain, level, now, dt, run) ==
        if AllFit(outputs) then Success(Composite(outputs)) else Failure(IndexOutOfBounds)
  {
    if chain != [] {
      var front := chain[..|chain| - 1];
      var outputs := Outputs(chain, level, now, dt, run);
      ChannelFrameComposite(front, level, now, dt, run);
      assert outputs[..|outputs| - 1] == Outputs(front, level, now, dt, run);
      assert AllFit(outputs) <==> AllFit(Outputs(front, level, now, dt, run)) && |outputs[|outputs| - 1]| <= UniverseSize;
    }
  }

  /** A channel without effects sends a dark universe; one that fails does
      so exactly because some entry yields more than 512 bytes. */
  lemma ChannelFrameCases(chain: seq<EffectFunc>, level: real, now: int, dt: int, run: Runner)
    ensures chain == [] ==> ChannelFrame(chain, level, now, dt, run) == Success(seq(UniverseSize, _ => 0))
    ensures ChannelFrame(chain, level, now, dt, run).Failure? <==>
      exists j :: 0 <= j < |chain| && |run(chain[j], level, now, dt)| > UniverseSize
  {
    ChannelFrameComposite(chain, level, now, dt, run);
    var outputs := Outputs(chain, level, now, dt, run);
    if !AllFit(outputs) {
      var j :| 0 <= j < |outputs| && |outputs[j]| > UniverseSize;
      assert |run(chain[j], level, now, dt)| > UniverseSize;
    }
  }

  /** Once a prefix of the chain fails, the whole chain does. */
  lemma {:induction false} FailureSticks(chain: seq<EffectFunc>, n: int, level: real, now: int, dt: int, run: Runner)
    requires 0 <= n <= |chain| && ChannelFrame(chain[..n], level, now, dt, run).Failure?
    ensures ChannelFrame(chain, level, now, dt, run) == Failure(IndexOutOfBounds)
    decreases |chain| - n
  {
    if n == |chain| {
      assert chain[..n] == chain;
      FailureIsIndexOutOfBounds(chain, level, now, dt, run);
    } else {
      assert chain[..n + 1][..n] == chain[..n];
      FailureSticks(chain, n + 1, level, now, dt, run);
    }
  }

  lemma {:induction false} FailureIsIndexOutOfBounds(chain: seq<EffectFunc>, level: real, now: int, dt: int, run: Runner)
    ensures ChannelFrame(chain, level, now, dt, run).Failure? ==> ChannelFrame(chain, level, now, dt, run) == Failure(IndexOutOfBounds)
  {
    if chain != [] {
      FailureIsIndexOutOfBounds(chain[..|chain| - 1], level, now, dt, run);
    }
  }

  class RealtimeChannel {
    const id: int
    var level: real
    var chain: seq<EffectFunc>

    constructor (id: int)
      ensures this.id == id && level == 100.0 && chain == []
    {
      this.id := id;
      level := 100.0;
      chain := [];
    }

    /** The Lombok setter: any value, unchecked. */
    method SetLevel(level: real)
      modifies this
      ensures this.level == level && chain == old(chain)
    {
      this.level := level;
    }

    method AddEffect(fx: EffectFunc)
      modifies this
      ensures chain == old(chain) + [fx] && level == old(level)
    {
      chain := chain + [fx];
    }

    /** Runs the chain into a fresh buffer; neither the level nor the chain changes. */
    method Tick(now: int, dt: int, run: Runner) returns (r: Result<seq<int>, Fault>)
      ensures r == ChannelFrame(chain, level, now, dt, run)
    {
      var dmxOut := new int[UniverseSize](_ => 0);
      var j := 0;
      assert chain[..0] == [];
      assert dmxOut[..] == seq(UniverseSize, _ => 0);
      while j < |chain|
        invariant 0 <= j <= |chain|
        invariant ChannelFrame(chain[..j], level, now, dt, run) == Success(dmxOut[..])
      {
        assert chain[..j + 1][..j] == chain[..j];
        var v := run(chain[j], level, now, dt);
        if |v| > dmxOut.Length {
          assert ChannelFrame(chain[..j + 1], level, now, dt, run).Failure?;
          FailureSticks(chain, j + 1, level, now, dt, run);
          return Failure(IndexOutOfBounds);
        }
        ghost var before := dmxOut[..];
        assert ChannelFrame(chain[..j + 1], level, now, dt, run) == Success(Paste(before, v));
        forall k | 0 <= k < |v| {
          dmxOut[k] := v[k];
        }
        assert dmxOut[..] == Paste(before, v);
        j := j + 1;
      }
      assert chain[..j] == chain;
      return Success(dmxOut[..]);
    }
  }

  // ---------------------------------------------------------------------
  // Broadcasting

  /** `new ArtnetFrame(url, subnet, universe, dmxData)`. */
  datatype ArtnetFrame = ArtnetFrame(url: string, subnet: int, universe: int, dmxData: seq<int>)

  /** One `broadcastDmx(subnet, universe, data)` call; the URL is not sent. */
  datatype Broadcast = Broadcast(subnet: int, universe: int, data: seq<int>)

  function BroadcastOf(frame: ArtnetFrame): Broadcast {
    Broadcast(frame.subnet, frame.universe, frame.dmxData)
  }

  /** One broadcast per frame, in order. */
  function BroadcastsOf(frames: seq<ArtnetFrame>): (r: seq<Broadcast>)
    ensures |r| == |frames|
    ensures forall k :: 0 <= k < |frames| ==> r[k] == BroadcastOf(frames[k])
  {
    seq(|frames|, k requires 0 <= k < |frames| => BroadcastOf(frames[k]))
  }

  /** The console's Art-Net client; the network send is an entry in `log`. */
  class BroadcastClient {
    var log: seq<Broadcast>

    constructor ()
      ensures log == []
    {
      log := [];
    }

    method BroadcastFrames(frames: seq<ArtnetFrame>)
      modifies this
      ensures log == old(log) + BroadcastsOf(frames)
    {
      var k := 0;
      while k < |frames|
        invariant 0 <= k <= |frames|
        invariant log == old(log) + BroadcastsOf(frames[..k])
      {
        assert BroadcastsOf(frames[..k + 1]) == BroadcastsOf(frames[..k]) + [BroadcastOf(frames[k])];
        log := log + [BroadcastOf(frames[k])];
        k := k + 1;
      }
      assert frames[..k] == frames;
    }
  }

  /** What every channel's tick yields, in channel order. */
  function Frames(channels: seq<RealtimeChannel>, now: int, dt: int, run: Runner): (r: seq<Result<seq<int>, Fault>>)
    reads channels
    ensures |r| == |channels|
    ensures forall k :: 0 <= k < |channels| ==>
      r[k] == ChannelFrame(channels[k].chain, channels[k].level, now, dt, run)
  {
    if channels == [] then []
    else
      var last := channels[|channels| - 1];
      Frames(channels[..|channels| - 1], now, dt, run) + [ChannelFrame(last.chain, last.level, now, dt, run)]
  }

  /** The broadcasts a console tick makes: one per channel on subnet 0 and
      universe 0, up to the first channel whose tick throws. */
  function Broadcasts(frames: seq<Result<seq<int>, Fault>>): (r: seq<Broadcast>)
    ensures |r| <= |frames|
    ensures forall k :: 0 <= k < |r| ==> frames[k].Success? && r[k] == Broadcast(0, 0, frames[k].value)
    ensures |r| < |frames| ==> frames[|r|].Failure?
  {
    if frames == [] || frames[0].Failure? then []
    else [Broadcast(0, 0, frames[0].value)] + Broadcasts(frames[1..])
  }

  class Console {
    /** The `HashMap` from channel id to channel.  Its keys are exactly
        0 .. n-1 and it iterates them in ascending order, so it is kept as a
        sequence indexed by id. */
    var channels: seq<RealtimeChannel>

    /** Channel k has id k, and no channel object appears twice. */
    ghost predicate Valid()
      reads this
    {
      (forall k :: 0 <= k < |channels| ==> channels[k].id == k) &&
      (forall j, k :: 0 <= j < k < |channels| ==> channels[j] != channels[k])
    }

    constructor (channelCount: int)
      ensures Valid()
      ensures |channels| == if channelCount < 0 then 0 else channelCount
      ensures forall k :: 0 <= k < |channels| ==>
        fresh(channels[k]) && channels[k].level == 100.0 && channels[k].chain == [ChannelDefault]
    {
      var made: seq<RealtimeChannel> := [];
      var i := 0;
      while i < channelCount
        invariant (if channelCount < 0 then i == 0 else 0 <= i <= channelCount) && |made| == i
        invariant forall k :: 0 <= k < i ==> made[k].id == k
        invariant forall j, k :: 0 <= j < k < i ==> made[j] != made[k]
        invariant forall k :: 0 <= k < i ==>
          fresh(made[k]) && made[k].level == 100.0 && made[k].chain == [ChannelDefault]
      {
        var channel := new RealtimeChannel(i);
        channel.AddEffect(ChannelDefault);
        made := made + [channel];
        i := i + 1;
      }
      channels := made;
    }

    /** `getChannelByIdIfPresent`: the channel with that id, if there is one. */
    function GetChannelByIdIfPresent(channelId: int): (r: Option<RealtimeChannel>)
      reads this
      ensures r.Some? <==> 0 <= channelId < |channels|
      ensures r.Some? && Valid() ==> r.value.id == channelId
    {
      if 0 <= channelId < |channels| then Some(channels[channelId]) else None
    }

    /** Ticks channel `k` and, when that succeeds, broadcasts its buffer on
        subnet 0 and universe 0. */
    method TickChannel(client: BroadcastClient, k: int, now: int, dt: int, run: Runner)
      returns (r: Result<seq<int>, Fault>)
      requires 0 <= k < |channels|
      modifies client
      ensures r == old(ChannelFrame(channels[k].chain, channels[k].level, now, dt, run))
      ensures client.log == old(client.log) + (if r.Success? then [Broadcast(0, 0, r.value)] else [])
    {
      r := channels[k].Tick(now, dt, run);
      if r.Success? {
        client.BroadcastFrames([ArtnetFrame("", 0, 0, r.value)]);
        assert BroadcastsOf([ArtnetFrame("", 0, 0, r.value)]) == [Broadcast(0, 0, r.value)];
      }
    }

    /** Ticks every channel and broadcasts its buffer; a channel whose tick
        throws ends the round, and `fault` reports it. */
    method Tick(client: BroadcastClient, now: int, dt: int, run: Runner) returns (fault: Option<Fault>)
      modifies client
      ensures var sends := Broadcasts(old(Frames(channels, now, dt, run)));
        client.log == old(client.log) + sends && (fault.Some? <==> |sends| < |channels|)
    {
      ghost var frames := Frames(channels, now, dt, run);
      assert frames == old(Frames(channels, now, dt, run));
      ghost var expected := Broadcasts(frames);
      var k := 0;
      while k < |channels|
        invariant 0 <= k <= |expected|
        invariant client.log == old(client.log) + expected[..k]
      {
        var dmxValues := TickChannel(client, k, now, dt, run);
        assert dmxValues == frames[k];
        if dmxValues.Failure? {
          assert |expected| == k;
          return Some(dmxValues.error);
        }
        assert expected[..k + 1] == expected[..k] + [expected[k]];
        k := k + 1;
      }
      assert expected[..k] == expected;
      return None;
    }
  }

  /** When no channel throws, a tick broadcasts each channel's buffer exactly
      once, in id order, on subnet 0 and universe 0. */
  lemma OneBroadcastPerChannel(frames: seq<Result<seq<int>, Fault>>)
    requires forall k :: 0 <= k < |frames| ==> frames[k].Success?
    ensures |Broadcasts(frames)| == |frames|
    ensures forall k :: 0 <= k < |frames| ==> Broadcasts(frames)[k] == Broadcast(0, 0, frames[k].value)
  {
  }

  class ConsoleService {
    const console: Console
    const client: BroadcastClient

    ghost predicate Valid()
      reads this, console
    {
      console.Valid()
    }

    /** The service's console has exactly one channel, id 0. */
    constructor (client: BroadcastClient)
      ensures Valid() && this.client == client && fresh(console)
      ensures |console.channels| == 1 && console.channels[0].id == 0
      ensures console.channels[0].chain == [ChannelDefault] && console.channels[0].level == 100.0
    {
      console := new Console(1);
      this.client := client;
    }

    /** Sets the level of the channel with that id, without a range check;
        an unknown id is ignored.  No other channel changes. */
    method SetLevel(channelId: int, level: real)
      requires Valid()
      modifies console.channels
      ensures Valid()
      ensures 0 <= channelId < |console.channels| ==> console.channels[channelId].level == level
      ensures forall k :: 0 <= k < |console.channels| && k != channelId ==>
        console.channels[k].level == old(console.channels[k].level)
      ensures forall k :: 0 <= k < |console.channels| ==> console.channels[k].chain == old(console.channels[k].chain)
    {
      var found := console.GetChannelByIdIfPresent(channelId);
      if found.Some? {
        found.value.SetLevel(level);
      }
    }

    method Tick(now: int, dt: int, run: Runner) returns (fault: Option<Fault>)
      modifies client
      ensures var sends := Broadcasts(old(Frames(console.channels, now, dt, run)));
        client.log == old(client.log) + sends && (fault.Some? <==> |sends| < |console.channels|)
    {
      fault := console.Tick(client, now, dt, run);
    }
  }

  // ---------------------------------------------------------------------
  // Building effects from stored definitions

  datatype EffectGenType = SINUS | OtherGen
  datatype EffectGenParam = EffectGenParam(key: string, value: real)
  datatype EffectGenDef = EffectGenDef(effectGenType: EffectGenType, effectGenParams: seq<EffectGenParam>)

  /** `RealtimeEffect`: a wrapper around the sine function it runs. */
  datatype RealtimeEffect = RealtimeEffect(effectFunc: SinusEffectFunc)

  /** The parameter keys as declared: both constants are the same string. */
  const AmpScaleKey: string := "SINUS_AMP_SCALE"
  const TimeOffsetKeyAsWritten: string := "SINUS_AMP_SCALE"
  /** A key of its own for the time offset. */
  const TimeOffsetKey: string := "SINUS_TIME_OFFSET"

  /** The value of the first parameter with the given key. */
  function FirstValue(params: seq<EffectGenParam>, key: string): (r: Option<real>)
    ensures r.None? <==> forall i :: 0 <= i < |params| ==> params[i].key != key
    ensures r.Some? ==> exists i :: (0 <= i < |params| && params[i].key == key && params[i].value == r.value &&
      forall j :: 0 <= j < i ==> params[j].key != key)
  {
    if params == [] then None
    else if params[0].key == key then Some(params[0].value)
    else
      var rest := FirstValue(params[1..], key);
      if rest.Some? then
        ghost var i :| 0 <= i < |params[1..]| && params[1..][i].key == key && params[1..][i].value == rest.value &&
          forall j :: 0 <= j < i ==> params[1..][j].key != key;
        assert params[i + 1] == params[1..][i];
        rest
      else rest
  }

  /** A sine effect on address 0 when both parameters are found. */
  function SinusFromParams(params: seq<EffectGenParam>, offsetKey: string): Option<SinusEffectFunc> {
    var amplitudeScale := FirstValue(params, AmpScaleKey);
    var timeOffset := FirstValue(params, offsetKey);
    if timeOffset.None? || amplitudeScale.None? then None
    else Some(SinusEffectFunc(0, amplitudeScale.value, timeOffset.value))
  }

  /** `getSinusEffectFunction` as written: the time offset is looked up
      with the amplitude key. */
  function GetSinusEffectFunctionAsWritten(def: EffectGenDef): (r: Option<SinusEffectFunc>)
    ensures r.Some? ==> r.value.timeOffset == r.value.amplitudeScale
  {
    SinusFromParams(def.effectGenParams, TimeOffsetKeyAsWritten)
  }

  function GetSinusEffectFunction(def: EffectGenDef): (r: Option<SinusEffectFunc>)
    ensures r.Some? <==> FirstValue(def.effectGenParams, AmpScaleKey).Some? && FirstValue(def.effectGenParams, TimeOffsetKey).Some?
    ensures r.Some? ==> r.value == SinusEffectFunc(0, FirstValue(def.effectGenParams, AmpScaleKey).value,
                                                   FirstValue(def.effectGenParams, TimeOffsetKey).value)
  {
    SinusFromParams(def.effectGenParams, TimeOffsetKey)
  }

  /** `RealtimeEffect.build`: only sine definitions build, always on address 0. */
  function Build(def: EffectGenDef): (r: Option<RealtimeEffect>)
    ensures r.Some? ==> def.effectGenType == SINUS && r.value.effectFunc.dmxAddress == 0
    ensures def.effectGenType == SINUS ==> (r.Some? <==> GetSinusEffectFunction(def).Some?)
  {
    match def.effectGenType
    case SINUS => if GetSinusEffectFunction(def).Some? then Some(RealtimeEffect(GetSinusEffectFunction(def).value)) else None
    case OtherGen => None
  }

  /** A definition with an amplitude of 2 and a time offset of 5 under their
      own keys builds an offset of 2 as written, and of 5 with distinct keys. */
  lemma TimeOffsetCounterexample()
    ensures var def := EffectGenDef(SINUS, [EffectGenParam(AmpScaleKey, 2.0), EffectGenParam(TimeOffsetKey, 5.0)]);
      GetSinusEffectFunctionAsWritten(def) == Some(SinusEffectFunc(0, 2.0, 2.0)) &&
      GetSinusEffectFunction(def) == Some(SinusEffectFunc(0, 2.0, 5.0))
  {
    var params := [EffectGenParam(AmpScaleKey, 2.0), EffectGenParam(TimeOffsetKey, 5.0)];
    assert AmpScaleKey[6] != TimeOffsetKey[6];
    assert params[1..] == [EffectGenParam(TimeOffsetKey, 5.0)];
    assert FirstValue(params[1..], TimeOffsetKey) == Some(5.0);
    assert FirstValue(params, TimeOffsetKey) == Some(5.0);
  }

  // ---------------------------------------------------------------------
  // Running a sine effect

  /** `(int) (Math.sin(ms + timeOffset) * 255 * amplitudeScale)`: the time is
      in milliseconds, unscaled. */
  function SinusValue(fx: SinusEffectFunc, currentTimeMillis: int, sin: real -> real): int {
    Trunc(sin(currentTimeMillis as real + fx.timeOffset) * 255.0 * fx.amplitudeScale)
  }

  /** `runEffect`: writes the sine value into the effect's one slot and
      returns what `clampToDMXRange` makes of the buffer.  That helper is
      not part of this model and is the parameter `clampToDmxRange`. */
  method RunEffect(fx: SinusEffectFunc, currentTimeMillis: int, dmxValues: array<int>, sin: real -> real,
                   clampToDmxRange: seq<int> -> seq<int>)
    returns (r: Result<seq<int>, Fault>)
    modifies dmxValues
    ensures !(0 <= fx.dmxAddress < dmxValues.Length) ==>
      r == Failure(IndexOutOfBounds) && dmxValues[..] == old(dmxValues[..])
    ensures 0 <= fx.dmxAddress < dmxValues.Length ==>
      dmxValues[..] == old(dmxValues[..])[fx.dmxAddress := SinusValue(fx, currentTimeMillis, sin)] &&
      r == Success(clampToDmxRange(dmxValues[..]))
  {
    if !(0 <= fx.dmxAddress < dmxValues.Length) {
      return Failure(IndexOutOfBounds);
    }
    dmxValues[fx.dmxAddress] := SinusValue(fx, currentTimeMillis, sin);
    return Success(clampToDmxRange(dmxValues[..]));
  }

  /** The buffer `loop` hands to the clamp: zeros except the effect's slot. */
  function LoopBuffer(fx: SinusEffectFunc, currentMillis: int, sin: real -> real): (b: seq<int>)
    requires 0 <= fx.dmxAddress < UniverseSize
    ensures |b| == UniverseSize && b[fx.dmxAddress] == SinusValue(fx, currentMillis, sin)
    ensures forall i :: 0 <= i < UniverseSize && i != fx.dmxAddress ==> b[i] == 0
  {
    seq(UniverseSize, _ => 0)[fx.dmxAddress := SinusValue(fx, currentMillis, sin)]
  }

  /** `loop`: runs the effect on a fresh zeroed 512-slot buffer. */
  method Loop(effect: RealtimeEffect, currentMillis: int, sin: real -> real, clampToDmxRange: seq<int> -> seq<int>)
    returns (r: Result<seq<int>, Fault>)
    ensures 0 <= effect.effectFunc.dmxAddress < UniverseSize ==>
      r == Success(clampToDmxRange(LoopBuffer(effect.effectFunc, currentMillis, sin)))
    ensures !(0 <= effect.effectFunc.dmxAddress < UniverseSize) ==> r == Failure(IndexOutOfBounds)
  {
    var buffer := new int[UniverseSize](_ => 0);
    assert buffer[..] == seq(UniverseSize, _ => 0);
    r := RunEffect(effect.effectFunc, currentMillis, buffer, sin, clampToDmxRange);
  }

  /** A built effect never faults: it writes address 0 of the fresh buffer. */
  lemma BuiltEffectWritesSlotZero(def: EffectGenDef, currentMillis: int, sin: real -> real)
    requires Build(def).Some?
    ensures var fx := Build(def).value.effectFunc;
      0 <= fx.dmxAddress < UniverseSize && LoopBuffer(fx, currentMillis, sin)[0] == SinusValue(fx, currentMillis, sin)
  {
  }
}
