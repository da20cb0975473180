/** Building an effect from the effect type a client picked and the JSON
    options it sent.  Only the two kinds of effect the factory knows are
    ever built; every other request, and every payload missing one of the
    three keys, yields no effect. */
module EffectBuilder {
  import opened Wrappers
  import opened Jvm
  import opened Effects

  /** A JSON node as `asDouble()` and `asInt()` see it: a whole number
      (Jackson's int, long or big-integer node), a number with a fraction
      or exponent (a double node), a boolean, or anything else.  Textual
      numbers, which Jackson would parse, fall under `JOther`. */
  datatype JsonNode =
    | JInt(i: int)
    | JNumber(n: real)
    | JBool(b: bool)
    | JOther

  type JsonObject = map<string, JsonNode>

  /** The effect types; only `PULSE` and `RUNNING` are built. */
  datatype EffectType = PULSE | RUNNING | OtherType

  const SpeedKey: string := "speed"
  const OffsetKey: string := "offset"
  const LedCountKey: string := "ledCount"

  /** `JsonNode.asDouble()`: a number is itself, a boolean is 1 or 0, anything else 0. */
  function AsDouble(node: JsonNode): real {
    match node
    case JInt(i) => i as real
    case JNumber(n) => n
    case JBool(b) => if b then 1.0 else 0.0
    case JOther => 0.0
  }

  /** `JsonNode.asInt()`: a whole number keeps its low 32 bits, so one
      beyond the `int` range wraps; a double is truncated toward zero. */
  function AsInt(node: JsonNode): (r: int)
    ensures node.JInt? ==> -0x8000_0000 <= r < 0x8000_0000 && (node.i - r) % 0x1_0000_0000 == 0
    ensures node.JInt? && -0x8000_0000 <= node.i < 0x8000_0000 ==> r == node.i
  {
    match node
    case JInt(i) => Int32(i)
    case JNumber(n) => Trunc(n)
    case JBool(b) => if b then 1 else 0
    case JOther => 0
  }

  /** The three `get(...)` calls succeed: the payload is there and holds all three keys. */
  predicate HasEffectKeys(options: Option<JsonObject>) {
    options.Some? && SpeedKey in options.value && OffsetKey in options.value && LedCountKey in options.value
  }

  /** `createPulseEffect`: a missing payload or key is the caught exception. */
  function CreatePulseEffect(options: Option<JsonObject>): (r: Option<Effect>)
    ensures r.Some? <==> HasEffectKeys(options)
    ensures r.Some? ==> r.value.Pulse? && WellFormed(r.value)
  {
    if !HasEffectKeys(options) then None
    else
      var m := options.value;
      Some(NewPulse(AsDouble(m[SpeedKey]), AsDouble(m[OffsetKey]), AsInt(m[LedCountKey])))
  }

  /** `createRunningEffect`: the offset is read, so it must be present,
      and then dropped by the effect. */
  function CreateRunningEffect(options: Option<JsonObject>): (r: Option<Effect>)
    ensures r.Some? <==> HasEffectKeys(options)
    ensures r.Some? ==> r.value.Running? && WellFormed(r.value)
  {
    if !HasEffectKeys(options) then None
    else
      var m := options.value;
      Some(NewRunning(AsDouble(m[SpeedKey]), AsDouble(m[OffsetKey]), AsInt(m[LedCountKey])))
  }

  /** `createEffectFromTypeAndJson`. */
  function CreateEffectFromTypeAndJson(effectType: EffectType, options: Option<JsonObject>): (r: Option<Effect>)
    ensures r.Some? <==> effectType != OtherType && HasEffectKeys(options)
    ensures r.Some? ==> WellFormed(r.value)
    ensures r.Some? && effectType == PULSE ==> r.value.Pulse?
    ensures r.Some? && effectType == RUNNING ==> r.value.Running?
  {
    match effectType
    case PULSE => CreatePulseEffect(options)
    case RUNNING => CreateRunningEffect(options)
    case OtherType => None
  }

  /** A built effect carries the requested speed and the requested light
      count clamped to the universe; a pulse keeps the offset too. */
  lemma BuiltEffectParameters(effectType: EffectType, options: Option<JsonObject>)
    requires CreateEffectFromTypeAndJson(effectType, options).Some?
    ensures var e := CreateEffectFromTypeAndJson(effectType, options).value;
      var m := options.value;
      e.speed == AsDouble(m[SpeedKey]) &&
      e.lightCount == ClampInt(AsInt(m[LedCountKey]), 0, DmxUniverseSize) &&
      (e.Pulse? ==> e.offset == AsDouble(m[OffsetKey]))
  {
  }

  /** A running light needs the offset key although the value never
      matters: two payloads that differ only in the offset build the same
      effect, and a payload without it builds none. */
  lemma RunningOffsetOnlyPresenceMatters(m: JsonObject, o1: JsonNode, o2: JsonNode)
    requires SpeedKey in m && LedCountKey in m
    ensures CreateEffectFromTypeAndJson(RUNNING, Some(m[OffsetKey := o1])) ==
            CreateEffectFromTypeAndJson(RUNNING, Some(m[OffsetKey := o2]))
    ensures CreateEffectFromTypeAndJson(RUNNING, Some(m - {OffsetKey})) == None
  {
    assert OffsetKey != SpeedKey && OffsetKey != LedCountKey;
  }

  /** `ledCount: 1000` asks for more lights than a universe holds; the
      stored count is clamped to 512, not to the 102 segments that fit. */
  lemma OversizedRequestClampedTo512(effectType: EffectType, speed: real, offset: real)
    requires effectType != OtherType
    ensures var options := Some(map[SpeedKey := JNumber(speed), OffsetKey := JNumber(offset), LedCountKey := JInt(1000)]);
      CreateEffectFromTypeAndJson(effectType, options).Some? &&
      CreateEffectFromTypeAndJson(effectType, options).value.lightCount == DmxUniverseSize
  {
  }

  /** A whole light count in the `int` range is clamped as it stands;
      one beyond it wraps first: 2^32 + 1 asks for one light and 2^31
      wraps to a negative count, which clamps to none. */
  lemma {:induction false} LightCountWraps(effectType: EffectType, speed: real, offset: real, count: int)
    requires effectType != OtherType
    ensures var e := CreateEffectFromTypeAndJson(effectType,
        Some(map[SpeedKey := JNumber(speed), OffsetKey := JNumber(offset), LedCountKey := JInt(count)]));
      e.Some? &&
      (-0x8000_0000 <= count < 0x8000_0000 ==> e.value.lightCount == ClampInt(count, 0, DmxUniverseSize)) &&
      (count == 0x1_0000_0001 ==> e.value.lightCount == 1) &&
      (count == 0x8000_0000 ==> e.value.lightCount == 0)
  {
    var m := map[SpeedKey := JNumber(speed), OffsetKey := JNumber(offset), LedCountKey := JInt(count)];
    assert m[LedCountKey] == JInt(count);
    BuiltEffectParameters(effectType, Some(m));
    if count == 0x1_0000_0001 {
      assert Int32(count) == 1;
    }
    if count == 0x8000_0000 {
      assert Int32(count) == -0x8000_0000;
    }
  }
}
