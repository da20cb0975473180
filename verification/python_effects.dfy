/** The Python prototype of the LED strip driver: an effect engine that
    renders one frame of five DMX slots per LED from a small set of
    settings, the model object that owns it, and the controller that maps a
    player id onto an effect.  `math.sin`, the `pack_rgbw_frame` helper and
    the seeded `random.randint(0, 2)` are parameters; Python's `int()` on a
    float truncates toward zero like a JVM narrowing cast, so `Trunc` is
    reused for it. */
module PyEffects {
  import opened Jvm

  /** Slots per LED in a rendered frame: dimmer, red, green, blue, white. */
  const SlotsPerLed: int := 5

  /** `pack_rgbw_frame(leds, r, g, b, w)`, which is not part of this model. */
  type Packer = (int, int, int, int, int) -> seq<int>

  datatype EffectType = STATIC | BOUNCY | GRADIENT | CHASE

  /** The fields of an `EffectState` at one moment. */
  datatype Settings = Settings(leds: int, staticLevel: int, bouncyFreq: real, gradientSpeed: real, chaseFreq: real)

  /** `int(max(1, n))`: at least one LED. */
  function LedCount(n: int): (r: int)
    ensures r >= 1
    ensures n >= 1 ==> r == n
    ensures n < 1 ==> r == 1
  {
    if n < 1 then 1 else n
  }

  /** `int(max(0, min(255, v)))`: a level within one DMX slot. */
  function ClampLevel(v: int): (r: int)
    ensures 0 <= r <= 255
    ensures 0 <= v <= 255 ==> r == v
    ensures v < 0 ==> r == 0
    ensures 255 < v ==> r == 255
  {
    if v > 255 then 255 else if v < 0 then 0 else v
  }

  /** `max(0.01, float(hz))`: a frequency is never below 0.01 Hz. */
  function FloorFreq(hz: real): (r: real)
    ensures r >= 0.01
    ensures hz >= 0.01 ==> r == hz
    ensures hz < 0.01 ==> r == 0.01
  {
    if hz < 0.01 then 0.01 else hz
  }

  /** `int((sin(a) * 0.5 + 0.5) * 255)`: a sine value mapped onto a DMX level. */
  function SineLevel(sin: real -> real, a: real): int {
    Trunc((sin(a) * 0.5 + 0.5) * 255.0)
  }

  /** The phase `2 * pi * freq * t` of a wave of frequency `freq` at time `t`. */
  function Phase(freq: real, t: real): real {
    2.0 * MathPi * freq * t
  }

  /** The angle of LED `i` when the strip spans one period. */
  function LedAngle(i: int, leds: int): real {
    (i as real / Spread(leds) as real) * 2.0 * MathPi
  }

  /** The BOUNCY level at time `t`. */
  function BouncyLevel(freq: real, t: real, sin: real -> real): int {
    SineLevel(sin, Phase(freq, t))
  }

  /** The GRADIENT level of LED `i`: the LEDs spread one sine period along
      the strip, shifted by the phase at time `t`. */
  function GradientLevel(i: int, leds: int, speed: real, t: real, sin: real -> real): int {
    SineLevel(sin, LedAngle(i, leds) + Phase(speed, t))
  }

  /** `max(1, leds - 1)`, the divisor that spreads the LEDs over one period. */
  function Spread(leds: int): (r: int)
    ensures r >= 1 && r >= leds - 1
  {
    if leds - 1 > 1 then leds - 1 else 1
  }

  /** With a sine inside [-1, 1], every sine-driven level fits a DMX slot. */
  lemma SineLevelInRange(sin: real -> real, a: real)
    requires -1.0 <= sin(a) <= 1.0
    ensures 0 <= SineLevel(sin, a) <= 255
  {
    var x := (sin(a) * 0.5 + 0.5) * 255.0;
    assert 0.0 <= x <= 255.0;
  }

  /** The LED the chase lights at time `t`: the truncated step count taken
      modulo the strip length, Python's `%` being non-negative here. */
  function ChaseIndex(t: real, freq: real, leds: int): (r: int)
    requires leds > 0
    ensures 0 <= r < leds
  {
    Trunc(t * freq) % leds
  }

  /** The five slots of LED `i` in a GRADIENT frame. */
  function GradientSegment(i: int, s: Settings, t: real, sin: real -> real): seq<int> {
    var v := GradientLevel(i, s.leds, s.gradientSpeed, t, sin);
    [255, v, 255 - v, 0, 0]
  }

  function GradientSegments(s: Settings, t: real, sin: real -> real): int -> seq<int> {
    i => GradientSegment(i, s, t, sin)
  }

  /** The five slots of LED `i` in a CHASE frame.  Only colour indices 0, 1
      and 2 append anything to the lit LED. */
  function ChaseSegment(i: int, active: int, color: int): seq<int> {
    if i != active then [0, 0, 0, 0, 0]
    else if color == 0 then [255, 255, 0, 0, 0]
    else if color == 1 then [255, 0, 255, 0, 0]
    else if color == 2 then [255, 0, 0, 255, 0]
    else []
  }

  function ChaseSegments(active: int, color: int): int -> seq<int> {
    i => ChaseSegment(i, active, color)
  }

  /** The frame built by extending it with the segments of LEDs 0 .. n-1 in turn. */
  function Segments(n: int, seg: int -> seq<int>): seq<int>
    decreases n
  {
    if n <= 0 then [] else Segments(n - 1, seg) + seg(n - 1)
  }

  /** When every segment is five slots long, slot `k` of the frame is slot
      `k % 5` of LED `k / 5`. */
  lemma {:induction false} SegmentsLayout(n: int, seg: int -> seq<int>)
    requires n >= 0
    requires forall i :: 0 <= i < n ==> |seg(i)| == SlotsPerLed
    ensures |Segments(n, seg)| == SlotsPerLed * n
    ensures forall k :: 0 <= k < SlotsPerLed * n ==> Segments(n, seg)[k] == seg(k / SlotsPerLed)[k % SlotsPerLed]
  {
    if n > 0 {
      SegmentsLayout(n - 1, seg);
      var prev := Segments(n - 1, seg);
      forall k | 0 <= k < SlotsPerLed * n
        ensures Segments(n, seg)[k] == seg(k / SlotsPerLed)[k % SlotsPerLed]
      {
        if k >= SlotsPerLed * (n - 1) {
          assert k / SlotsPerLed == n - 1;
          assert Segments(n, seg)[k] == seg(n - 1)[k - SlotsPerLed * (n - 1)];
        }
      }
    }
  }

  /** LED `i` occupies slots `5 * i` up to `5 * i + 5` of the frame. */
  lemma {:induction false} SegmentAt(n: int, seg: int -> seq<int>, i: int)
    requires 0 <= i < n
    requires forall k :: 0 <= k < n ==> |seg(k)| == SlotsPerLed
    ensures |Segments(n, seg)| == SlotsPerLed * n
    ensures Segments(n, seg)[SlotsPerLed * i .. SlotsPerLed * i + SlotsPerLed] == seg(i)
  {
    SegmentsLayout(n - 1, seg);
    var prev := Segments(n - 1, seg);
    if i < n - 1 {
      SegmentAt(n - 1, seg, i);
      assert (prev + seg(n - 1))[SlotsPerLed * i .. SlotsPerLed * i + SlotsPerLed] ==
             prev[SlotsPerLed * i .. SlotsPerLed * i + SlotsPerLed];
    } else {
      assert (prev + seg(n - 1))[|prev|..] == seg(n - 1);
    }
  }

  /** The frame `render(t)` returns for an effect and the settings. */
  function RenderedFrame(effect: EffectType, s: Settings, t: real, sin: real -> real,
                         pack: Packer, pick: int -> int): seq<int>
  {
    match effect
    case STATIC => pack(s.leds, s.staticLevel, s.staticLevel, s.staticLevel, 0)
    case BOUNCY =>
      var v := BouncyLevel(s.bouncyFreq, t, sin);
      pack(s.leds, v, v, v, 0)
    case GRADIENT => GradientFrame(s, t, sin)
    case CHASE => ChaseFrame(s, t, pick)
  }

  function GradientFrame(s: Settings, t: real, sin: real -> real): seq<int> {
    Segments(s.leds, GradientSegments(s, t, sin))
  }

  /** The LED at the chase index lit in the colour picked for its seed; no
      LEDs, no frame. */
  function ChaseFrame(s: Settings, t: real, pick: int -> int): seq<int> {
    if s.leds <= 0 then []
    else
      var active := ChaseIndex(t, s.chaseFreq, s.leds);
      Segments(s.leds, ChaseSegments(active, pick(active + 900)))
  }

  /** A GRADIENT frame holds five slots per LED; every LED has full dimmer,
      a green slot that mirrors its red slot, and dark blue and white slots. */
  lemma GradientFrameShape(s: Settings, t: real, sin: real -> real, pack: Packer, pick: int -> int)
    requires s.leds >= 0
    ensures var f := RenderedFrame(GRADIENT, s, t, sin, pack, pick);
      |f| == SlotsPerLed * s.leds &&
      forall i :: 0 <= i < s.leds ==>
        f[5 * i] == 255 && f[5 * i + 2] == 255 - f[5 * i + 1] && f[5 * i + 3] == 0 && f[5 * i + 4] == 0 &&
        f[5 * i + 1] == GradientLevel(i, s.leds, s.gradientSpeed, t, sin)
  {
    var seg := GradientSegments(s, t, sin);
    SegmentsLayout(s.leds, seg);
    var f := Segments(s.leds, seg);
    assert RenderedFrame(GRADIENT, s, t, sin, pack, pick) == f;
    forall i | 0 <= i < s.leds
      ensures f[5 * i] == 255 && f[5 * i + 2] == 255 - f[5 * i + 1] && f[5 * i + 3] == 0 && f[5 * i + 4] == 0
      ensures f[5 * i + 1] == GradientLevel(i, s.leds, s.gradientSpeed, t, sin)
    {
      SegmentAt(s.leds, seg, i);
      var slots := f[5 * i .. 5 * i + 5];
      assert slots == GradientSegment(i, s, t, sin);
      assert f[5 * i] == slots[0] && f[5 * i + 1] == slots[1] && f[5 * i + 2] == slots[2];
      assert f[5 * i + 3] == slots[3] && f[5 * i + 4] == slots[4];
    }
  }

  /** With a sine inside [-1, 1], every slot of a GRADIENT frame fits a DMX slot. */
  lemma GradientFrameInRange(s: Settings, t: real, sin: real -> real, pack: Packer, pick: int -> int)
    requires s.leds >= 0
    requires forall a :: -1.0 <= sin(a) <= 1.0
    ensures forall k :: 0 <= k < |RenderedFrame(GRADIENT, s, t, sin, pack, pick)| ==>
      0 <= RenderedFrame(GRADIENT, s, t, sin, pack, pick)[k] <= 255
  {
    var seg := GradientSegments(s, t, sin);
    SegmentsLayout(s.leds, seg);
    forall i | 0 <= i < s.leds
      ensures forall j :: 0 <= j < 5 ==> 0 <= seg(i)[j] <= 255
    {
      SineLevelInRange(sin, LedAngle(i, s.leds) + Phase(s.gradientSpeed, t));
    }
  }

  /** An empty strip chases nothing. */
  lemma ChaseEmptyStrip(s: Settings, t: real, sin: real -> real, pack: Packer, pick: int -> int)
    requires s.leds <= 0
    ensures RenderedFrame(CHASE, s, t, sin, pack, pick) == []
  {
  }

  /** A CHASE frame holds five slots per LED.  Only the LED at
      `ChaseIndex` is lit: its dimmer is full and exactly one of red, green
      and blue, the one the colour pick names, is full; every other slot of
      the frame is 0. */
  lemma ChaseFrameShape(s: Settings, t: real, sin: real -> real, pack: Packer, pick: int -> int)
    requires s.leds > 0
    requires var active := ChaseIndex(t, s.chaseFreq, s.leds); 0 <= pick(active + 900) <= 2
    ensures var f := RenderedFrame(CHASE, s, t, sin, pack, pick);
      var active := ChaseIndex(t, s.chaseFreq, s.leds);
      var color := pick(active + 900);
      |f| == SlotsPerLed * s.leds &&
      (forall k :: 0 <= k < |f| && f[k] != 0 ==> k / 5 == active) &&
      f[5 * active] == 255 && f[5 * active + 4] == 0 &&
      var lit := f[5 * active + 1 .. 5 * active + 4];
      (forall c :: 0 <= c < 3 ==> (lit[c] == 255 <==> c == color)) &&
      (forall c :: 0 <= c < 3 ==> (lit[c] == 0 <==> c != color))
  {
    var active := ChaseIndex(t, s.chaseFreq, s.leds);
    var color := pick(active + 900);
    var seg := ChaseSegments(active, color);
    SegmentsLayout(s.leds, seg);
    SegmentAt(s.leds, seg, active);
    var f := Segments(s.leds, seg);
    assert f[5 * active + 1 .. 5 * active + 4] == seg(active)[1..4];
  }

  class EffectState {
    var leds: int
    var staticLevel: int
    var bouncyFreq: real
    var gradientSpeed: real
    var chaseFreq: real

    /** The LED count is stored as given, without the floor `SetLeds` applies. */
    constructor (leds: int)
      ensures Snapshot() == Settings(leds, 0, 1.0, 1.0, 1.0)
    {
      this.leds := leds;
      staticLevel := 0;
      bouncyFreq := 1.0;
      gradientSpeed := 1.0;
      chaseFreq := 1.0;
    }

    function Snapshot(): Settings
      reads this
    {
      Settings(leds, staticLevel, bouncyFreq, gradientSpeed, chaseFreq)
    }

    method SetLeds(n: int)
      modifies this
      ensures Snapshot() == old(Snapshot()).(leds := LedCount(n))
    {
      leds := LedCount(n);
    }
  }

  class EffectEngine {
    const state: EffectState
    var effect: EffectType

    constructor (state: EffectState)
      ensures this.state == state && effect == STATIC
    {
      this.state := state;
      effect := STATIC;
    }

    method SetEffect(e: EffectType)
      modifies this
      ensures effect == e && unchanged(state)
    {
      effect := e;
    }

    method SetStaticLevel(v: int)
      modifies state
      ensures state.Snapshot() == old(state.Snapshot()).(staticLevel := ClampLevel(v))
      ensures effect == old(effect)
    {
      state.staticLevel := ClampLevel(v);
    }

    method SetBouncyFreq(hz: real)
      modifies state
      ensures state.Snapshot() == old(state.Snapshot()).(bouncyFreq := FloorFreq(hz))
      ensures effect == old(effect)
    {
      state.bouncyFreq := FloorFreq(hz);
    }

    method SetGradientSpeed(hz: real)
      modifies state
      ensures state.Snapshot() == old(state.Snapshot()).(gradientSpeed := FloorFreq(hz))
      ensures effect == old(effect)
    {
      state.gradientSpeed := FloorFreq(hz);
    }

    method SetChaseFreq(hz: real)
      modifies state
      ensures state.Snapshot() == old(state.Snapshot()).(chaseFreq := FloorFreq(hz))
      ensures effect == old(effect)
    {
      state.chaseFreq := FloorFreq(hz);
    }

    /** `render(t)`; the seeded colour pick is `pick(seed)`. */
    method Render(t: real, sin: real -> real, pack: Packer, pick: int -> int) returns (frame: seq<int>)
      ensures frame == RenderedFrame(effect, state.Snapshot(), t, sin, pack, pick)
    {
      var leds := state.leds;
      match effect
      case STATIC =>
        var v := state.staticLevel;
        frame := pack(leds, v, v, v, 0);
      case BOUNCY =>
        var v := Trunc((sin(Phase(state.bouncyFreq, t)) * 0.5 + 0.5) * 255.0);
        frame := pack(leds, v, v, v, 0);
      case GRADIENT =>
        frame := RenderGradient(state.Snapshot(), t, sin);
      case CHASE =>
        frame := RenderChase(state.Snapshot(), t, pick);
    }
  }

  /** The GRADIENT loop: one five-slot segment per LED. */
  method RenderGradient(s: Settings, t: real, sin: real -> real) returns (frame: seq<int>)
    ensures frame == GradientFrame(s, t, sin)
  {
    var leds := s.leds;
    ghost var seg := GradientSegments(s, t, sin);
    frame := [];
    var phase := Phase(s.gradientSpeed, t);
    var i := 0;
    while i < leds
      invariant i <= leds || i == 0
      invariant frame == Segments(i, seg)
    {
      var x := LedAngle(i, leds);
      var val := Trunc((sin(x + phase) * 0.5 + 0.5) * 255.0);
      assert seg(i) == [255, val, 255 - val, 0, 0];
      frame := frame + [255, val, 255 - val, 0, 0];
      i := i + 1;
    }
    if leds > 0 {
      assert i == leds;
    }
  }

  /** The CHASE loop: the LED at the chase index gets the picked colour,
      every other LED a dark segment. */
  method RenderChase(s: Settings, t: real, pick: int -> int) returns (frame: seq<int>)
    ensures frame == ChaseFrame(s, t, pick)
  {
    var leds := s.leds;
    if leds <= 0 {
      return [];
    }
    var ledIdx := ChaseIndex(t, s.chaseFreq, leds);
    var colorIdx := pick(ledIdx + 900);
    ghost var seg := ChaseSegments(ledIdx, colorIdx);
    frame := [];
    var i := 0;
    while i < leds
      invariant 0 <= i <= leds
      invariant frame == Segments(i, seg)
    {
      if i == ledIdx {
        if colorIdx == 0 {
          frame := frame + [255, 255, 0, 0, 0];
        }
        if colorIdx == 1 {
          frame := frame + [255, 0, 255, 0, 0];
        }
        if colorIdx == 2 {
          frame := frame + [255, 0, 0, 255, 0];
        }
      } else {
        frame := frame + [0, 0, 0, 0, 0];
      }
      i := i + 1;
    }
  }

  /** `DmxConfig(universe, address)`. */
  datatype DmxConfig = DmxConfig(universe: int, address: int)

  /** The Art-Net model object: the effect state and engine it owns, the DMX
      addressing and whether the send loop runs.  Starting and stopping
      only flip `running`; the driver, the threads and the send loop are
      not part of this model. */
  class ArtNetModel {
    const state: EffectState
    const engine: EffectEngine
    var dmxConfig: DmxConfig
    var running: bool

    ghost predicate Valid()
      reads this
    {
      engine.state == state
    }

    /** One LED, the default settings, STATIC, universe 0 at address 1, stopped. */
    constructor ()
      ensures Valid() && fresh(state) && fresh(engine)
      ensures state.Snapshot() == Settings(1, 0, 1.0, 1.0, 1.0) && engine.effect == STATIC
      ensures dmxConfig == DmxConfig(0, 1) && !running
    {
      var s := new EffectState(1);
      state := s;
      engine := new EffectEngine(s);
      dmxConfig := DmxConfig(0, 1);
      running := false;
    }

    method Start()
      modifies this
      ensures running && dmxConfig == old(dmxConfig)
    {
      if running {
        return;
      }
      running := true;
    }

    method Stop()
      modifies this
      ensures !running && dmxConfig == old(dmxConfig)
    {
      if !running {
        return;
      }
      running := false;
    }

    /** Sets the LED count to at least one, restarting a running model
        around the change; whether it runs is the same afterwards. */
    method RestartForLeds(leds: int)
      modifies this, state
      ensures state.Snapshot() == old(state.Snapshot()).(leds := LedCount(leds))
      ensures running == old(running) && dmxConfig == old(dmxConfig)
    {
      var n := LedCount(leds);
      if n == state.leds && running {
        return;
      }
      var wasRunning := running;
      if wasRunning {
        Stop();
      }
      state.SetLeds(n);
      if wasRunning {
        Start();
      }
    }

    /** Stores the addressing; a running model is restarted to pick it up. */
    method SetDmxConfig(cfg: DmxConfig)
      modifies this
      ensures dmxConfig == cfg && running == old(running)
    {
      dmxConfig := cfg;
      if !running {
        return;
      }
      Stop();
      Start();
    }
  }

  /** The players a client can pick, `PLAYER_MAP`'s labels. */
  datatype Player = SnapOn | SnapOff | Bouncy | Gradient | Chase

  const PlayerMap: map<int, Player> := map[1 := SnapOn, 2 := SnapOff, 3 := Bouncy, 4 := Gradient, 5 := Chase]

  /** `sorted(PLAYER_MAP.keys())`. */
  const AllowedPlayers: seq<int> := [1, 2, 3, 4, 5]

  /** The allowed list is the player ids in ascending order, each once. */
  lemma AllowedPlayersSortedKeys()
    ensures forall i, j :: 0 <= i < j < |AllowedPlayers| ==> AllowedPlayers[i] < AllowedPlayers[j]
    ensures forall id :: id in AllowedPlayers <==> id in PlayerMap
  {
  }

  /** The dictionary `apply` returns. */
  datatype Reply =
    | UnknownPlayer(playerId: int, allowed: seq<int>)
    | Applied(player: Player, leds: int, address: int, universe: int, channels: int, frequencyHz: real)

  class Controller {
    const model: ArtNetModel

    constructor (model: ArtNetModel)
      ensures this.model == model
    {
      this.model := model;
    }

    /** Applies the addressing and the LED count first, then the player.
        An unknown player id answers with the allowed ids and leaves the
        effect, its settings and the running state alone; a known one sets
        its effect, a level or a frequency, and starts the model.  The
        reply reports the requested LED count and four channels per LED,
        not the floored count the state keeps. */
    method Apply(playerId: int, leds: int, freq: real, addr: int, uni: int) returns (r: Reply)
      requires model.Valid()
      modifies model, model.state, model.engine
      ensures model.Valid()
      ensures model.dmxConfig == DmxConfig(uni, addr)
      ensures playerId !in PlayerMap ==>
        r == UnknownPlayer(playerId, AllowedPlayers) &&
        model.state.Snapshot() == old(model.state.Snapshot()).(leds := LedCount(leds)) &&
        model.engine.effect == old(model.engine.effect) && model.running == old(model.running)
      ensures playerId in PlayerMap ==>
        var settings := old(model.state.Snapshot()).(leds := LedCount(leds));
        var p := PlayerMap[playerId];
        r == Applied(p, leds, addr, uni, 4 * leds, freq) && model.running &&
        (p == SnapOn ==> model.engine.effect == STATIC && model.state.Snapshot() == settings.(staticLevel := 255)) &&
        (p == SnapOff ==> model.engine.effect == STATIC && model.state.Snapshot() == settings.(staticLevel := 0)) &&
        (p == Bouncy ==> model.engine.effect == BOUNCY && model.state.Snapshot() == settings.(bouncyFreq := FloorFreq(freq))) &&
        (p == Gradient ==> model.engine.effect == GRADIENT && model.state.Snapshot() == settings.(gradientSpeed := FloorFreq(freq))) &&
        (p == Chase ==> model.engine.effect == CHASE && model.state.Snapshot() == settings.(chaseFreq := FloorFreq(freq)))
    {
      model.SetDmxConfig(DmxConfig(uni, addr));
      model.RestartForLeds(leds);
      if playerId !in PlayerMap {
        return UnknownPlayer(playerId, AllowedPlayers);
      }
      var player := PlayerMap[playerId];
      match player {
        case SnapOn =>
          model.engine.SetEffect(STATIC);
          model.engine.SetStaticLevel(255);
        case SnapOff =>
          model.engine.SetEffect(STATIC);
          model.engine.SetStaticLevel(0);
        case Bouncy =>
          model.engine.SetEffect(BOUNCY);
          model.engine.SetBouncyFreq(freq);
        case Gradient =>
          model.engine.SetEffect(GRADIENT);
          model.engine.SetGradientSpeed(freq);
        case Chase =>
          model.engine.SetEffect(CHASE);
          model.engine.SetChaseFreq(freq);
      }
      if !model.running {
        model.Start();
      }
      r := Applied(player, leds, addr, uni, 4 * leds, freq);
    }
  }
}
