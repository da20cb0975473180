# LumenForge lighting and inventory core, modelled in Dafny

This project models the core of the LumenForge lighting server and its
inventory back end, and proves properties of that model. It has four parts.

* **The Art-Net/DMX lighting engine (Java and Python).**
  * The four effects (static colour, running light, pulse, colour ramp)
    render a 512-slot DMX universe, five slots per light.
    `EffectBuilder` builds an effect from a tagged payload.
    `EffectManager` holds the current effect.
    `ArtnetClient` fans one frame out to every active device.
  * The realtime console keeps per-channel effect chains and pastes them
    into a buffer.
  * The slider console holds range-checked channel values.
  * `EffectEngine` maps channels to universes.
  * The Python prototype (`effects.py`, `model.py`, `controller.py`) repeats
    the same ideas: clamped setters, a five-slot frame layout and a
    player-id dispatch.
* **Text formats.**
  * PEM armouring with 64-character lines, as in section 2 of RFC 7468.
  * The C header hex dump.
  * The `key=value` build-options parser and printer.
  * The OTA query-string builder.
  * The Keycloak role-to-authority converter.
  * The in-memory Art-Net device store.
* **The Java inventory services.**
  * Stock count validation, including `BigDecimal.stripTrailingZeros`.
  * Stock upsert, patch and delete, keyed by device.
  * Name normalisation in the category, maintenance status and vendor
    services.
* **The C# inventory and auth services.**
  * Device updates: null keeps a field and white space clears it.
  * Parameter upsert and removal.
  * Stock patches.
  * Category id resolution.
  * `DeviceFactory.Create`.
  * `DeviceView.FromEntity` with its `OrderBy` ordering.
  * Category create, update and delete with the cascade on links.
  * The DTO `Validate` methods.
  * The group and user request validators.
  * The role-claim helpers, including `Guid.Parse`/`ToString` of the
    hyphenated form.

Each source class whose fields change in place becomes a Dafny `class`.
Its methods name their frame in `modifies` and state the whole new state.
Loops stay loops, and their invariants tie the result to a specification
function. Pure code becomes functions and lemmas. Exceptions become
`Result`/`Option` error values, never preconditions. Repositories become
in-memory maps. Clocks, GUID generation, randomness and the network become
parameters or an appended log.

## Model

| member | source | states |
|---|---|---|
| Effects.NewStaticColor | src/main/java/de/pschiessle/artnet/sender/effects/StaticColorEffect.java:14-21 | keeps dimmer and colours as given and clamps the light count into 0..512 (negative gives 0, above 512 gives 512) |
| Effects.NewRunning | src/main/java/de/pschiessle/artnet/sender/effects/RunningEffect.java:11-14 | keeps the speed and clamps the light count into 0..512 |
| Effects.RunningIgnoresOffset | src/main/java/de/pschiessle/artnet/sender/effects/RunningEffect.java:11-14 | two running effects that differ only in the offset argument are equal: the offset is dropped |
| Effects.NewPulse | src/main/java/de/pschiessle/artnet/sender/effects/PulseEffect.java:16-20 | keeps speed and offset and clamps the light count into 0..512 |
| Effects.NewColorRamp | src/main/java/de/pschiessle/artnet/sender/effects/ColorRampEffect.java:13-16 | keeps the speed and clamps the light count into 0..512 |
| Effects.RenderStatic | src/main/java/de/pschiessle/artnet/sender/effects/StaticColorEffect.java:23-34 | the segment loop over a fresh 512-slot array yields the static frame: every light repeats the clamped dimmer and the four colour bytes, or the render fails with an index error once the lights pass slot 511 |
| Effects.StaticSegments | src/main/java/de/pschiessle/artnet/sender/effects/StaticColorEffect.java:23-34 | every light of a static colour carries the same five channels, and two renders at different times are equal |
| Effects.StaticColorTwoLights | src/main/java/de/pschiessle/artnet/sender/effects/StaticColorEffect.java:26-32 | two lights with dimmer 100 and colour 10, 20, 30, 40 give those ten slots followed by 502 zeros |
| Effects.RenderRunning | src/main/java/de/pschiessle/artnet/sender/effects/RunningEffect.java:16-49 | the nested segment/channel loops yield the running-light frame, a division-by-zero failure, or an index failure, as the specification function says |
| Effects.RunningLightsOneSegment | src/main/java/de/pschiessle/artnet/sender/effects/RunningEffect.java:23-47 | the active segment is in 0..lightCount-1; it has intensity 255 and the fade on all four colour channels, and every other segment is all zeros |
| Effects.StepIndexNonNegative | src/main/java/de/pschiessle/artnet/sender/effects/RunningEffect.java:23 | the cycle count is never negative for a non-negative time and speed |
| Effects.CycleDivisorZero | src/main/java/de/pschiessle/artnet/sender/effects/RunningEffect.java:20-26 | the truncated cycle length is 0, so the modulo faults, exactly when the speed is above 1000 in magnitude; speeds in (0, 1000] give a divisor of at least 1 |
| Effects.FadeValueInRange | src/main/java/de/pschiessle/artnet/sender/effects/ColorRampEffect.java:30-34 | with the sine in [-1, 1], the fade value lies in 0..255 (the byte cast keeps it) and the hue lies in [0, 360] |
| Effects.RunningAtTimeZero | src/main/java/de/pschiessle/artnet/sender/effects/RunningEffect.java:23-47 | at time 0 only slot 0 is lit, at 255, and the colour channels are still dark |
| Effects.RenderPulse | src/main/java/de/pschiessle/artnet/sender/effects/PulseEffect.java:22-33 | the nested loops yield the pulse frame, or an index failure once the lights pass slot 511 |
| Effects.PulseSegments | src/main/java/de/pschiessle/artnet/sender/effects/PulseEffect.java:25-31 | every lit segment has intensity 255, and all four colour channels hold that segment's level; the phase depends on the segment, not the channel |
| Effects.PulseLevelInRange | src/main/java/de/pschiessle/artnet/sender/effects/PulseEffect.java:29 | the level is round(sin(phase)*127)+127 and lies in 0..254 when the sine lies in [-1, 1] |
| Effects.PulseAtTimeZero | src/main/java/de/pschiessle/artnet/sender/effects/PulseEffect.java:26-29 | one light at speed 1 and offset 0 shows 255, 127, 127, 127, 127 at time 0 |
| Effects.RenderColorRamp | src/main/java/de/pschiessle/artnet/sender/effects/ColorRampEffect.java:19-55 | the corrected colour ramp: the active segment carries intensity and the red, green and blue of the hue, with white dark |
| Effects.FillRamp | src/main/java/de/pschiessle/artnet/sender/effects/ColorRampEffect.java:36-53 | the segment loop writes the ramp frame for the active segment, or fails with an index error when the lights do not fit |
| Effects.RampCarriesHue | src/main/java/de/pschiessle/artnet/sender/effects/ColorRampEffect.java:39-52 | the active segment carries hsvToRgb(hue), each inactive segment is dark, and the white channel stays 0 |
| Effects.RampAsWrittenDropsRed | src/main/java/de/pschiessle/artnet/sender/effects/ColorRampEffect.java:42-45 | as written, the red slot of every segment is 0, because the write at line 45 overwrites red |
| Effects.RampRedCounterexample | src/main/java/de/pschiessle/artnet/sender/effects/ColorRampEffect.java:42-45 | for a pure red hue at time 0, the code as written emits red 0 where the intended frame has 255 |
| Effects.Render | src/main/java/de/pschiessle/artnet/sender/effects/EffectManager.java:66 | `render(time)` of any effect agrees with the specification function of its kind |
| Effects.DarkBeyondLights | src/main/java/de/pschiessle/artnet/sender/effects/RunningEffect.java:18-48 | a successful render has 512 slots, each in 0..255, and every slot at or beyond 5*lightCount is 0 |
| Effects.RenderFaults | src/main/java/de/pschiessle/artnet/sender/effects/RunningEffect.java:20-26 | static and pulse fail only with an index error, and exactly when more than 102 lights are set; running and ramp fail with division by zero exactly when there are no lights or the cycle truncates to 0 |
| Effects.NoLights | src/main/java/de/pschiessle/artnet/sender/effects/RunningEffect.java:24 | with 0 lights, static and pulse render a dark universe, while running and ramp divide by zero |
| Effects.ClampedCountOverruns | src/main/java/de/pschiessle/artnet/sender/effects/StaticColorEffect.java:20-31 | a request for 1000 lights is clamped to 512, which still overruns the 512-slot array for every kind of effect |
| EffectBuilder.CreatePulseEffect | src/main/java/de/pschiessle/artnet/sender/effects/EffectBuilder.java:9-19 | an effect comes back exactly when the payload holds `speed`, `offset` and `ledCount`; it is a well-formed pulse, with a light count inside 0..512 (`BuiltEffectParameters` gives the exact count: `ledCount` read by the 32-bit `asInt()`, then clamped), and a missing key gives empty instead of an exception |
| EffectBuilder.CreateRunningEffect | src/main/java/de/pschiessle/artnet/sender/effects/EffectBuilder.java:21-33 | an effect comes back exactly when all three keys are present, including the unused `offset`; it is a well-formed running light with a light count inside 0..512 (exact count as for the pulse) |
| EffectBuilder.CreateEffectFromTypeAndJson | src/main/java/de/pschiessle/artnet/sender/effects/EffectBuilder.java:35-41 | PULSE and RUNNING build their own kind of effect when the keys are present; every other tag yields empty |
| EffectBuilder.BuiltEffectParameters | src/main/java/de/pschiessle/artnet/sender/effects/EffectBuilder.java:11-14 | a built effect carries the requested speed and, as light count, the `asInt()` reading of `ledCount` clamped to 0..512, where a whole number beyond the `int` range wraps to its low 32 bits first; a pulse also keeps the offset |
| EffectBuilder.RunningOffsetOnlyPresenceMatters | src/main/java/de/pschiessle/artnet/sender/effects/EffectBuilder.java:24-28 | the running effect does not depend on the offset's value, but a payload without `offset` builds nothing |
| EffectBuilder.OversizedRequestClampedTo512 | src/main/java/de/pschiessle/artnet/sender/effects/EffectBuilder.java:13 | `ledCount: 1000` builds an effect with 512 lights, not the 102 that fit |
| EffectBuilder.LightCountWraps | src/main/java/de/pschiessle/artnet/sender/effects/EffectBuilder.java:27 | any whole `ledCount` in the `int` range gives that count clamped to 0..512, while 4294967297 wraps to 1 light and 2147483648 wraps to the negative minimum and so to 0 lights |
| Sender.Fanout | src/main/java/de/pschiessle/artnet/sender/artnet/ArtnetClient.java:35-37 | one unicast per device, in list order, each carrying that device's URL, subnet and universe and the unchanged frame; the list stops at the first device whose subnet or universe is missing |
| Sender.OnlyActiveDevicesAddressed | src/main/java/de/pschiessle/artnet/sender/artnet/ArtnetClient.java:35-36 | every unicast sent targets an active device of the store and carries the frame unchanged |
| Sender.EachAddressableDeviceOnce | src/main/java/de/pschiessle/artnet/sender/artnet/ArtnetClient.java:35-37 | when every active device has a subnet and a universe, each of them gets exactly one send |
| Sender.ArtnetClient.SendDmx | src/main/java/de/pschiessle/artnet/sender/artnet/ArtnetClient.java:27-40 | a null frame sends nothing; otherwise the send log grows by the fan-out over the active devices, and the call throws exactly when the fan-out stops early |
| Sender.EffectManager.constructor | src/main/java/de/pschiessle/artnet/sender/effects/EffectManager.java:28-33 | a new manager holds no effect |
| Sender.EffectManager.SetEffect | src/main/java/de/pschiessle/artnet/sender/effects/EffectManager.java:71-74 | the current effect becomes whatever the builder returns, so a rejected request clears the old effect |
| Sender.EffectManager.SendLoop | src/main/java/de/pschiessle/artnet/sender/effects/EffectManager.java:64-68 | without an effect nothing is sent; a render that throws sends nothing; otherwise the rendered frame is fanned out to every active device |
| Sender.FreshManagerSendsNothing | src/main/java/de/pschiessle/artnet/sender/effects/EffectManager.java:28 | a tick of a freshly built manager sends nothing |
| Jvm.ClampInt | src/main/java/de/pschiessle/artnet/sender/effects/StaticColorEffect.java:20 | `Math.max(Math.min(v, hi), lo)` lies in [lo, hi] and equals v when v already does |
| Jvm.ClampReal | src/main/java/de/pschiessle/artnet/sender/effects/StaticColorEffect.java:27 | `Math.clamp` lies in [lo, hi], keeps values inside and maps values outside to the nearer bound |
| Jvm.Int32 | src/main/java/de/pschiessle/artnet/sender/effects/EffectBuilder.java:13 | narrowing a whole number to a Java `int` lands in the signed 32-bit range, agrees with it modulo 2^32, and leaves values already in range unchanged |
| Jvm.LowByte | src/main/java/de/pschiessle/artnet/sender/effects/StaticColorEffect.java:28 | a `(byte)` cast keeps the value modulo 256 and leaves 0..255 unchanged |
| Jvm.ByteOfDouble | src/main/java/de/pschiessle/artnet/sender/effects/StaticColorEffect.java:27 | a `(byte)` cast of a double lies in 0..255 and is the floor for values in [0, 256) |
| Jvm.Trunc | src/main/java/de/pschiessle/artnet/sender/effects/RunningEffect.java:23 | a `(long)` cast truncates toward zero |
| Jvm.Rem | src/main/java/de/pschiessle/artnet/sender/effects/RunningEffect.java:24 | Java's `%` is smaller in magnitude than the divisor and has the sign of the dividend |
| Jvm.Round | src/main/java/de/pschiessle/artnet/sender/effects/RunningEffect.java:31 | `Math.round` is the nearest integer, with halves rounded up |
| Sliders.Slider.constructor | src/main/java/de/pschiessle/artnet/sender/console/Slider.java:7-12 | a new slider keeps its channel index and holds value 0 |
| Sliders.Slider.GetValue | src/main/java/de/pschiessle/artnet/sender/console/Slider.java:14-16 | answers the stored value |
| Sliders.Slider.SetValue | src/main/java/de/pschiessle/artnet/sender/console/Slider.java:18-24 | a value in 0..255 is stored and returned; any other value fails with IllegalArgumentException and the stored value is kept |
| Sliders.Console.constructor | src/main/java/de/pschiessle/artnet/sender/console/Console.java:11-17 | one fresh slider per channel 0..n-1, slider i at index i, all at 0; a negative count gives no sliders |
| Sliders.Console.SetSliderValueIfPossible | src/main/java/de/pschiessle/artnet/sender/console/Console.java:19-24 | an index outside the bank answers empty and changes nothing; a valid value at an index in range returns that value and changes only that slider; an invalid value fails and changes nothing |
| Sliders.Console.GetSliderClone | src/main/java/de/pschiessle/artnet/sender/console/Console.java:26-28 | a fresh array holding the same slider objects in the same order |
| EffectEngineModel.EmptyBuffer | src/main/java/de/pschiessle/artnet/sender/console/EffectEngine.java:34 | `new Integer[512]` has 512 entries, all null rather than 0 |
| EffectEngineModel.EffectEngine.constructor | src/main/java/de/pschiessle/artnet/sender/console/EffectEngine.java:15-20 | the engine starts with no channels, no mappings, and both timestamps at the construction time |
| EffectEngineModel.EffectEngine.SetChannelList | src/main/java/de/pschiessle/artnet/sender/console/EffectEngine.java:22-27 | stores the list; afterwards the map's keys are exactly the distinct universes of the channels, each with a fresh empty buffer, and older mappings are gone |
| EffectEngineModel.EffectEngine.RebuildUniverseMapping | src/main/java/de/pschiessle/artnet/sender/console/EffectEngine.java:29-35 | clears the map and refills it with one empty buffer per distinct universe |
| EffectEngineModel.EffectEngine.LoopAt40Hz | src/main/java/de/pschiessle/artnet/sender/console/EffectEngine.java:37-52 | after a tick, both timestamps equal that tick's time, and the channel effect stacks leave the universe map untouched |
| EffectEngineModel.SharedUniverseOneBuffer | src/main/java/de/pschiessle/artnet/sender/console/EffectEngine.java:31-34 | every channel's universe has a buffer, there are never more buffers than channels, and fewer as soon as two channels share a universe |
| Realtime.Paste | src/main/java/de/pschiessle/artnet/sender/console/realtime/RealtimeChannel.java:26 | `System.arraycopy` of v over the front of the buffer: the first \|v\| slots become v and the rest keep their values |
| Realtime.Composite | src/main/java/de/pschiessle/artnet/sender/console/realtime/RealtimeChannel.java:23-28 | starting from zeros and pasting every output in turn always gives 512 slots |
| Realtime.LastCovering | src/main/java/de/pschiessle/artnet/sender/console/realtime/RealtimeChannel.java:24-27 | finds the last output long enough to reach a slot; no later output reaches it |
| Realtime.CompositeSlot | src/main/java/de/pschiessle/artnet/sender/console/realtime/RealtimeChannel.java:24-27 | each slot holds the value of the last output that reaches it, or 0 when no output does, so later effects overwrite earlier ones where they overlap |
| Realtime.Outputs | src/main/java/de/pschiessle/artnet/sender/console/realtime/RealtimeChannel.java:25 | one output per chain entry, in chain order, each the entry run at the channel's level |
| Realtime.ChannelFrame | src/main/java/de/pschiessle/artnet/sender/console/realtime/RealtimeChannel.java:22-29 | a successful channel tick yields exactly 512 slots |
| Realtime.ChannelFrameComposite | src/main/java/de/pschiessle/artnet/sender/console/realtime/RealtimeChannel.java:22-29 | the tick fails exactly when some output is longer than 512; otherwise it is the composite of all outputs |
| Realtime.ChannelFrameCases | src/main/java/de/pschiessle/artnet/sender/console/realtime/RealtimeChannel.java:23-28 | an empty chain yields 512 zeros; a tick fails exactly when some entry yields more than 512 bytes |
| Realtime.FailureSticks | src/main/java/de/pschiessle/artnet/sender/console/realtime/RealtimeChannel.java:24-27 | once a prefix of the chain fails, the whole tick fails with an index error |
| Realtime.FailureIsIndexOutOfBounds | src/main/java/de/pschiessle/artnet/sender/console/realtime/RealtimeChannel.java:26 | the only way a channel tick fails is the array copy's index error |
| Realtime.RealtimeChannel.constructor | src/main/java/de/pschiessle/artnet/sender/console/realtime/RealtimeChannel.java:11-17 | a new channel keeps its id, has level 100 and an empty chain |
| Realtime.RealtimeChannel.SetLevel | src/main/java/de/pschiessle/artnet/sender/console/realtime/RealtimeChannel.java:12-13 | the Lombok setter stores any level unchecked and leaves the chain alone |
| Realtime.RealtimeChannel.AddEffect | src/main/java/de/pschiessle/artnet/sender/console/realtime/RealtimeChannel.java:19-20 | appends the effect at the end of the chain and keeps the level |
| Realtime.RealtimeChannel.Tick | src/main/java/de/pschiessle/artnet/sender/console/realtime/RealtimeChannel.java:22-29 | the loop over a fresh buffer computes the channel frame; neither level nor chain changes |
| Realtime.BroadcastsOf | src/main/java/de/pschiessle/artnet/sender/console/realtime/Console.java:30 | one broadcast per frame, in order, with the frame's subnet, universe and data |
| Realtime.BroadcastClient.BroadcastFrames | src/main/java/de/pschiessle/artnet/sender/console/realtime/Console.java:30 | the send log grows by exactly the broadcasts of the given frames |
| Realtime.Frames | src/main/java/de/pschiessle/artnet/sender/console/realtime/Console.java:28-29 | one channel tick result per channel, in channel order |
| Realtime.Broadcasts | src/main/java/de/pschiessle/artnet/sender/console/realtime/Console.java:27-32 | one broadcast on subnet 0, universe 0 per channel, up to the first channel whose tick throws |
| Realtime.Console.constructor | src/main/java/de/pschiessle/artnet/sender/console/realtime/Console.java:15-25 | channels 0..n-1, each fresh, each with level 100 and exactly one effect in its chain; a negative count gives none |
| Realtime.Console.GetChannelByIdIfPresent | src/main/java/de/pschiessle/artnet/sender/console/realtime/Console.java:34-36 | a channel is found exactly for ids in 0..n-1, and it carries that id |
| Realtime.Console.TickChannel | src/main/java/de/pschiessle/artnet/sender/console/realtime/Console.java:29-30 | ticks one channel and, when that succeeds, logs exactly one broadcast of its buffer on subnet 0 and universe 0 |
| Realtime.Console.Tick | src/main/java/de/pschiessle/artnet/sender/console/realtime/Console.java:27-32 | the log grows by the broadcasts of every channel in id order; a fault is reported exactly when some channel's tick threw |
| Realtime.OneBroadcastPerChannel | src/main/java/de/pschiessle/artnet/sender/console/realtime/Console.java:27-32 | when no channel throws, each channel is broadcast exactly once, in id order, on subnet 0 and universe 0 |
| Realtime.ConsoleService.constructor | src/main/java/de/pschiessle/artnet/sender/console/realtime/ConsoleService.java:10-15 | the service's console has exactly one channel, id 0, with level 100 and the default chain |
| Realtime.ConsoleService.SetLevel | src/main/java/de/pschiessle/artnet/sender/console/realtime/ConsoleService.java:17-20 | a known id gets the level, with no range check; an unknown id is a no-op; no other channel and no chain changes |
| Realtime.ConsoleService.Tick | src/main/java/de/pschiessle/artnet/sender/console/realtime/ConsoleService.java:22-24 | delegates once to the console's tick with the same time and step |
| Realtime.FirstValue | src/main/java/de/pschiessle/artnet/sender/console/realtime/RealtimeEffect.java:32-39 | the value of the first parameter with that key; empty exactly when no parameter has it |
| Realtime.GetSinusEffectFunctionAsWritten | src/main/java/de/pschiessle/artnet/sender/console/realtime/effectfuncs/SinusEffectFunc.java:5-6 | as written, both keys are the same string, so a built effect's time offset always equals its amplitude |
| Realtime.GetSinusEffectFunction | src/main/java/de/pschiessle/artnet/sender/console/realtime/RealtimeEffect.java:31-42 | with distinct keys: built exactly when both keys are present, on address 0, with the first amplitude and the first time offset |
| Realtime.Build | src/main/java/de/pschiessle/artnet/sender/console/realtime/RealtimeEffect.java:23-29 | only SINUS definitions build, always on DMX address 0; a SINUS definition builds exactly when both parameters are found |
| Realtime.TimeOffsetCounterexample | src/main/java/de/pschiessle/artnet/sender/console/realtime/RealtimeEffect.java:36-41 | amplitude 2 and time offset 5 under their own keys give offset 2 as written and offset 5 with distinct keys |
| Realtime.RunEffect | src/main/java/de/pschiessle/artnet/sender/console/realtime/effectfuncs/SinusEffectFunc.java:19-22 | writes only the effect's own slot, with the truncated sin(ms + offset)*255*amplitude, and returns the clamp of that buffer; an address outside the buffer fails and leaves it unchanged |
| Realtime.LoopBuffer | src/main/java/de/pschiessle/artnet/sender/console/realtime/RealtimeEffect.java:19-21 | the buffer the loop hands on has 512 slots: the effect's slot holds the sine value and every other slot is 0 |
| Realtime.Loop | src/main/java/de/pschiessle/artnet/sender/console/realtime/RealtimeEffect.java:19-21 | runs the effect on a fresh zeroed 512-slot buffer, and fails only when the address lies outside it |
| Realtime.BuiltEffectWritesSlotZero | src/main/java/de/pschiessle/artnet/sender/console/realtime/RealtimeEffect.java:41 | a built effect writes slot 0 of the fresh buffer and never faults |
| PyEffects.LedCount | src/effects.py:25-26 | `set_leds` stores at least one LED: n when n ≥ 1, otherwise 1 |
| PyEffects.ClampLevel | src/effects.py:37-38 | the static level is clamped into 0..255 |
| PyEffects.FloorFreq | src/effects.py:40-47 | a frequency is floored at 0.01 Hz and kept when it is already at least that |
| PyEffects.Spread | src/effects.py:64 | `max(1, leds - 1)` is at least 1 and at least leds - 1 |
| PyEffects.SineLevelInRange | src/effects.py:65 | with the sine in [-1, 1], `int((sin * 0.5 + 0.5) * 255)` lies in 0..255 |
| PyEffects.ChaseIndex | src/effects.py:73 | the chased LED index lies in 0..leds-1 |
| PyEffects.SegmentsLayout | src/effects.py:61-67 | extending a frame by one five-slot segment per LED gives 5·n slots, and slot k is slot k mod 5 of LED k / 5 |
| PyEffects.SegmentAt | src/effects.py:63-66 | LED i occupies slots 5i to 5i+4 of the frame |
| PyEffects.GradientFrameShape | src/effects.py:60-67 | a GRADIENT frame has 5·leds slots; for each LED, slot 0 is 255, slot 2 is 255 minus slot 1, slots 3 and 4 are 0, and slot 1 is that LED's sine level |
| PyEffects.GradientFrameInRange | src/effects.py:60-67 | with the sine in [-1, 1], every slot of a GRADIENT frame lies in 0..255 |
| PyEffects.ChaseEmptyStrip | src/effects.py:70-72 | CHASE with no LEDs returns the empty frame |
| PyEffects.ChaseFrameShape | src/effects.py:69-89 | a CHASE frame has 5·leds slots and only the chased LED is non-zero; that LED has dimmer 255, exactly the picked one of slots 1..3 at 255, and slot 4 at 0 |
| PyEffects.EffectState.constructor | src/effects.py:18-23 | stores the LED count as given, without a floor, with level 0 and all frequencies 1 Hz |
| PyEffects.EffectState.SetLeds | src/effects.py:25-26 | only the LED count changes, to at least one |
| PyEffects.EffectEngine.constructor | src/effects.py:30-32 | a new engine shares the given state and starts on STATIC |
| PyEffects.EffectEngine.SetEffect | src/effects.py:34-35 | changes the effect and nothing in the state |
| PyEffects.EffectEngine.SetStaticLevel | src/effects.py:37-38 | only the static level changes, to the clamped value |
| PyEffects.EffectEngine.SetBouncyFreq | src/effects.py:40-41 | only the BOUNCY frequency changes, floored at 0.01 |
| PyEffects.EffectEngine.SetGradientSpeed | src/effects.py:43-44 | only the GRADIENT speed changes, floored at 0.01 |
| PyEffects.EffectEngine.SetChaseFreq | src/effects.py:46-47 | only the CHASE frequency changes, floored at 0.01 |
| PyEffects.EffectEngine.Render | src/effects.py:49-92 | dispatches on the effect and returns the frame of the current settings |
| PyEffects.RenderGradient | src/effects.py:60-67 | the loop that extends the frame LED by LED builds the GRADIENT frame |
| PyEffects.RenderChase | src/effects.py:69-89 | the loop lights the chased LED in the picked colour and gives every other LED a dark segment |
| PyEffects.ArtNetModel.constructor | src/model.py:76-94 | one LED, default settings, STATIC, universe 0 at address 1, not running |
| PyEffects.ArtNetModel.Start | src/model.py:102-124 | the model runs afterwards, with its addressing kept |
| PyEffects.ArtNetModel.Stop | src/model.py:126-143 | the model is stopped afterwards, with its addressing kept |
| PyEffects.ArtNetModel.RestartForLeds | src/model.py:145-154 | the LED count becomes at least one, and whether the model runs is the same afterwards |
| PyEffects.ArtNetModel.SetDmxConfig | src/model.py:158-164 | stores the new addressing, and whether the model runs is unchanged |
| PyEffects.AllowedPlayersSortedKeys | src/controller.py:27 | the "allowed" list is the player ids in ascending order, each once |
| PyEffects.Controller.constructor | src/controller.py:17-18 | keeps the model |
| PyEffects.Controller.Apply | src/controller.py:21-59 | addressing and LED count are applied before the id is checked; an unknown id returns the error with the sorted ids and leaves the effect and the running state alone; a known id sets its effect and level or frequency, starts the model, and reports 4·leds channels |
| DmxOta.PrefixedAppend | src/main/java/de/pschiessle/artnet/sender/web/DmxOtaViewController.java:80-84 | one more field adds an `&` and that field to the end of the `&`-led list |
| DmxOta.TailAppend | src/main/java/de/pschiessle/artnet/sender/web/DmxOtaViewController.java:76-109 | after the mode, each present parameter is appended on its own when nothing came before, and after an `&` otherwise |
| DmxOta.ParamStep | src/main/java/de/pschiessle/artnet/sender/web/DmxOtaViewController.java:76-109 | one parameter block keeps the builder invariant: the text is the head plus the fields so far, and the first-parameter flag is set exactly while nothing has been appended |
| DmxOta.QueryAsWrittenParts | src/main/java/de/pschiessle/artnet/sender/web/DmxOtaViewController.java:67-109 | the builder's query is the mode text with its own `&`, followed by the later fields |
| DmxOta.AppendParam | src/main/java/de/pschiessle/artnet/sender/web/DmxOtaViewController.java:76-85 | appends `&` unless this is the first parameter, then `key=value`; afterwards no parameter is the first |
| DmxOta.SendHttpRequestToDevice | src/main/java/de/pschiessle/artnet/sender/web/DmxOtaViewController.java:53-113 | the string-builder code yields the outcome of the query as written: a null or blank URL gives the empty-field message, a form with no parameter gives "No param specified!", otherwise `https://` + URL + `/internal?` + query |
| DmxOta.FieldHasNoAmpersand | src/main/java/de/pschiessle/artnet/sender/web/DmxOtaViewController.java:82-84 | a rendered `key=value` field contains no `&` |
| DmxOta.FieldsSeparable | src/main/java/de/pschiessle/artnet/sender/web/DmxOtaViewController.java:67-109 | no parameter field contains the separator |
| DmxOta.NoParamIff | src/main/java/de/pschiessle/artnet/sender/web/DmxOtaViewController.java:67-113 | no parameter is sent exactly when the mode is null or NO_CHANGE, the address is null or outside 0..511, the universe is null or negative, and the receiver type is null or NO_CHANGE |
| DmxOta.BlankUrlRejected | src/main/java/de/pschiessle/artnet/sender/web/DmxOtaViewController.java:58-61 | a null or blank device URL is rejected with the empty-field message before the form is looked at |
| DmxOta.PrefixedJoin | src/main/java/de/pschiessle/artnet/sender/web/DmxOtaViewController.java:80-103 | a non-empty list of `&`-led fields is an `&` followed by the fields joined with `&` |
| DmxOta.QuerySplitsIntoFields | src/main/java/de/pschiessle/artnet/sender/web/DmxOtaViewController.java:67-109 | splitting the intended query at `&` gives back exactly the fields, in the order mode, address, universe, receiver type |
| DmxOta.ModeTailJoin | src/main/java/de/pschiessle/artnet/sender/web/DmxOtaViewController.java:73-80 | the mode's own `&` followed by the `&`-led fields is the join with an empty field after the mode |
| DmxOta.AsWrittenSplit | src/main/java/de/pschiessle/artnet/sender/web/DmxOtaViewController.java:67-109 | as written, when the mode is set, splitting at `&` yields an empty field right after the mode; without the mode, the query is the intended one |
| DmxOta.ModeThenAddressCounterexample | src/main/java/de/pschiessle/artnet/sender/web/DmxOtaViewController.java:67-84 | mode 2 with address 1 gives `dmxMode=1&&dmxAddress=1` as written, where `dmxMode=1&dmxAddress=1` is meant |
| DmxOta.ModeAloneCounterexample | src/main/java/de/pschiessle/artnet/sender/web/DmxOtaViewController.java:67-74 | mode 3 alone gives `dmxMode=2&` with a dangling `&` as written |
| BuildOptions.KeyIndex | src/main/java/de/pschiessle/artnet/sender/iotprojects/IoTProjectController.java:91 | the first index holding the key, or the length when no entry has it |
| BuildOptions.Put | src/main/java/de/pschiessle/artnet/sender/iotprojects/IoTProjectController.java:91 | `LinkedHashMap.put`: an existing key keeps its place and takes the new value, a new key goes to the end, and distinct keys stay distinct |
| BuildOptions.Lines | src/main/java/de/pschiessle/artnet/sender/iotprojects/IoTProjectController.java:83 | `split("\\r?\\n")` gives one line per line feed |
| BuildOptions.ParseBuildOptions | src/main/java/de/pschiessle/artnet/sender/iotprojects/IoTProjectController.java:78-94 | the loop over the lines computes the parse: an empty map for a null or blank text, otherwise the lines put in order, or the first bad line's error |
| BuildOptions.ParseLineFails | src/main/java/de/pschiessle/artnet/sender/iotprojects/IoTProjectController.java:84-91 | one line fails exactly when it is non-blank and has no `=`, and the message quotes the line |
| BuildOptions.ShiftBad | src/main/java/de/pschiessle/artnet/sender/iotprojects/IoTProjectController.java:84-92 | past a good first line, the bad lines are those of the rest |
| BuildOptions.ParseFailsIffBadLine | src/main/java/de/pschiessle/artnet/sender/iotprojects/IoTProjectController.java:84-92 | the parse throws IllegalArgumentException exactly when some line is non-blank and has no `=` |
| BuildOptions.ShiftFirstBad | src/main/java/de/pschiessle/artnet/sender/iotprojects/IoTProjectController.java:84-92 | past a good first line, the first bad line is one further on |
| BuildOptions.ParseFailsAtFirstBadLine | src/main/java/de/pschiessle/artnet/sender/iotprojects/IoTProjectController.java:88-89 | a failed parse quotes the first bad line |
| BuildOptions.PutTwice | src/main/java/de/pschiessle/artnet/sender/iotprojects/IoTProjectController.java:91 | putting a key twice keeps the later value, in the place the first put gave it, so the later of two duplicate lines wins |
| BuildOptions.ValueKeepsLaterEquals | src/main/java/de/pschiessle/artnet/sender/iotprojects/IoTProjectController.java:87 | the split is at the first `=` only, so `a=b=c` gives key `a` and value `b=c` |
| BuildOptions.MapToText | src/main/java/de/pschiessle/artnet/sender/iotprojects/IoTProjectController.java:96-103 | the forEach loop writes the text: empty for a null or empty map, otherwise the `k=v` lines, with null v as empty, trimmed as a whole |
| BuildOptions.LinesOf | src/main/java/de/pschiessle/artnet/sender/iotprojects/IoTProjectController.java:101 | one entry line per entry |
| BuildOptions.CleanLine | src/main/java/de/pschiessle/artnet/sender/iotprojects/IoTProjectController.java:101-102 | the line of an entry with trimmed key and value and no line feed is its own trim and contains no line feed |
| BuildOptions.RenderedJoin | src/main/java/de/pschiessle/artnet/sender/iotprojects/IoTProjectController.java:101 | the rendered text is the entry lines joined by line feeds, plus a final line feed |
| BuildOptions.TextOfClean | src/main/java/de/pschiessle/artnet/sender/iotprojects/IoTProjectController.java:100-102 | for a clean, non-empty map, the trim removes only the final line feed |
| BuildOptions.LinesOfClean | src/main/java/de/pschiessle/artnet/sender/iotprojects/IoTProjectController.java:83 | splitting the text of a clean map at line feeds gives back its entry lines |
| BuildOptions.ParseCleanLine | src/main/java/de/pschiessle/artnet/sender/iotprojects/IoTProjectController.java:85-91 | parsing the line of a clean entry puts exactly that entry |
| BuildOptions.KeyNewAt | src/main/java/de/pschiessle/artnet/sender/iotprojects/IoTProjectController.java:91 | with distinct keys, putting the next entry appends it |
| BuildOptions.ParseCleanLines | src/main/java/de/pschiessle/artnet/sender/iotprojects/IoTProjectController.java:84-92 | parsing the lines of a clean map from entry j on, into its first j entries, rebuilds the whole map |
| BuildOptions.RoundTrip | src/main/java/de/pschiessle/artnet/sender/iotprojects/IoTProjectController.java:78-102 | parsing the text of a map gives the map back, when keys and values are non-null, trimmed and free of line feeds and keys have no `=` |
| CertText.Chunks | src/main/java/de/pschiessle/artnet/sender/devices/CertificateGenerationService.java:260-265 | the base64 text is cut into non-empty lines of 64 characters, and only the last may be shorter |
| CertText.ChunksRoundTrip | src/main/java/de/pschiessle/artnet/sender/devices/CertificateGenerationService.java:260-265 | joining the lines gives back the base64 text, and there are ceil(len/64) of them |
| CertText.ChunkWithin | src/main/java/de/pschiessle/artnet/sender/devices/CertificateGenerationService.java:262-263 | every character of a line comes from the base64 text |
| CertText.WritePem | src/main/java/de/pschiessle/artnet/sender/devices/CertificateGenerationService.java:255-267 | the while loop writes the BEGIN line, the body 64 characters at a time with each line followed by a line feed, and the END line |
| CertText.PemBodyJoin | src/main/java/de/pschiessle/artnet/sender/devices/CertificateGenerationService.java:263 | the body lines, each followed by a line feed, are the fields between line feeds |
| CertText.PemFieldsClean | src/main/java/de/pschiessle/artnet/sender/devices/CertificateGenerationService.java:258-267 | no line of a PEM text holds a line feed of its own, when type and base64 hold none |
| CertText.PemLines | src/main/java/de/pschiessle/artnet/sender/devices/CertificateGenerationService.java:258-267 | splitting the PEM text at line feeds gives `-----BEGIN <type>-----`, the body lines, `-----END <type>-----` and a final empty piece; the body lines rejoin to the base64 text, and there are ceil(len/64) of them |
| CertText.Unsigned | src/main/java/de/pschiessle/artnet/sender/devices/CertificateGenerationService.java:284 | `data[i] & 0xff` is the byte's unsigned value in 0..255 |
| CertText.HexByteDecodes | src/main/java/de/pschiessle/artnet/sender/devices/CertificateGenerationService.java:284 | a byte is written as `0x` and two lowercase hex digits that read back as its unsigned value |
| CertText.HexDigitValue | src/main/java/de/pschiessle/artnet/sender/devices/CertificateGenerationService.java:284 | a hex digit is 0-9 or a-f and reads back as its value |
| CertText.ColStep | src/main/java/de/pschiessle/artnet/sender/devices/CertificateGenerationService.java:281 | byte i sits in column i mod 12, and the next byte's column follows it |
| CertText.EmitPiece | src/main/java/de/pschiessle/artnet/sender/devices/CertificateGenerationService.java:281-290 | one loop iteration writes the indent in column 0, the hex byte, `, ` unless it is the last byte, and a line feed at the end of a row or of the data |
| CertText.WriteCHdr | src/main/java/de/pschiessle/artnet/sender/devices/CertificateGenerationService.java:271-293 | the text opens with `#ifndef G`, `#define G` and a blank line, declares the array, writes the bytes, and closes with `};`, a blank line and `#endif` |
| CertText.TailInRow | src/main/java/de/pschiessle/artnet/sender/devices/CertificateGenerationService.java:280-291 | from a given column, the bytes that fit the row go on it, separated by `, `, and the next row starts again in column 0 |
| CertText.LastByte | src/main/java/de/pschiessle/artnet/sender/devices/CertificateGenerationService.java:285-289 | the last byte ends its row with a line feed and no `, ` |
| CertText.RowLastColumn | src/main/java/de/pschiessle/artnet/sender/devices/CertificateGenerationService.java:285-289 | a byte in column 11 with more bytes to come ends its row with `, ` and a line feed |
| CertText.TailMidRow | src/main/java/de/pschiessle/artnet/sender/devices/CertificateGenerationService.java:284-287 | a byte that is neither the last nor at a row end is followed by `, ` and the rest of the row |
| CertText.RowContinues | src/main/java/de/pschiessle/artnet/sender/devices/CertificateGenerationService.java:280-291 | a row that fills up before the bytes end ends in `, ` and a line feed |
| CertText.RowEnds | src/main/java/de/pschiessle/artnet/sender/devices/CertificateGenerationService.java:280-291 | when the bytes end within the row, the row ends in a line feed |
| CertText.ArrayBodyRows | src/main/java/de/pschiessle/artnet/sender/devices/CertificateGenerationService.java:280-291 | the array text is rows of 12 bytes, each indented by two spaces and ended by a line feed; the last row may be shorter, and there is no `, ` after the last byte |
| KeycloakRoles.Authorities | src/main/java/de/pschiessle/artnet/sender/auth/KeycloakRoleConverter.java:33 | one authority per role name, in list order |
| KeycloakRoles.KeycloakRoleConverter.constructor | src/main/java/de/pschiessle/artnet/sender/auth/KeycloakRoleConverter.java:19-21 | keeps the resource name |
| KeycloakRoles.KeycloakRoleConverter.Convert | src/main/java/de/pschiessle/artnet/sender/auth/KeycloakRoleConverter.java:24-51 | succeeds exactly when every listed name has text, with the realm roles followed by this client's roles, each in token order, and a missing claim or `roles` key contributing nothing; an empty or white-space name throws `IllegalArgumentException` |
| KeycloakRoles.AddAll | src/main/java/de/pschiessle/artnet/sender/auth/KeycloakRoleConverter.java:33 | the forEach throws `IllegalArgumentException` when a name is empty or white space only, and otherwise appends one authority per name, in order |
| KeycloakRoles.AuthoritiesAppend | src/main/java/de/pschiessle/artnet/sender/auth/KeycloakRoleConverter.java:48-49 | converting two lists one after the other is the same as converting their concatenation |
| KeycloakRoles.ConvertedRoles | src/main/java/de/pschiessle/artnet/sender/auth/KeycloakRoleConverter.java:48-49 | a role is granted exactly when it is listed in either source, and a role listed in both is granted twice: there is no de-duplication |
| KeycloakRoles.AuthorityCount | src/main/java/de/pschiessle/artnet/sender/auth/KeycloakRoleConverter.java:33 | each listing of a name is exactly one authority for it |
| KeycloakRoles.OtherClientsIgnored | src/main/java/de/pschiessle/artnet/sender/auth/KeycloakRoleConverter.java:40-41 | entries of `resource_access` for other clients never change the result |
| KeycloakRoles.MissingClaims | src/main/java/de/pschiessle/artnet/sender/auth/KeycloakRoleConverter.java:30-46 | a token without `realm_access` grants only client roles, and one without `resource_access` grants only realm roles |
| ArtnetDevices.PatchProperties | src/main/java/de/pschiessle/artnet/sender/devices/DeviceService.java:60-72 | an update keeps id, OTA compatibility, certificate and creation time, and always sets the update time; applying it twice is the same as once; an all-null request only refreshes the update time |
| ArtnetDevices.FindId | src/main/java/de/pschiessle/artnet/sender/devices/DeviceService.java:61 | finds the row with that id, or shows that no row has it |
| ArtnetDevices.WithActivity | src/main/java/de/pschiessle/artnet/sender/devices/DeviceService.java:46-49 | a device is in the result exactly when it is in the table with the requested flag; a null flag matches neither value |
| ArtnetDevices.WithActivityCount | src/main/java/de/pschiessle/artnet/sender/devices/DeviceService.java:46-49 | a matching device appears in the result as often as in the table, and any other device not at all |
| ArtnetDevices.WithActivitySingle | src/main/java/de/pschiessle/artnet/sender/devices/DeviceService.java:46-49 | a one-row table keeps its row exactly when the flag matches |
| ArtnetDevices.PrefixPosition | src/main/java/de/pschiessle/artnet/sender/devices/DeviceService.java:46-49 | a matching row sits in the result right after the matches that precede it in the table |
| ArtnetDevices.WithActivityKeepsOrder | src/main/java/de/pschiessle/artnet/sender/devices/DeviceService.java:46-49 | two matching rows appear in the result in their table order |
| ArtnetDevices.WithActivityAppend | src/main/java/de/pschiessle/artnet/sender/devices/DeviceService.java:46-49 | filtering a concatenation is the concatenation of the filtered parts |
| ArtnetDevices.NoneWithActivity | src/main/java/de/pschiessle/artnet/sender/devices/DeviceService.java:46-49 | a table without a matching flag yields no devices |
| ArtnetDevices.ReplaceKeepsIds | src/main/java/de/pschiessle/artnet/sender/devices/DeviceService.java:70 | saving a row under its own id keeps the ids ordered |
| ArtnetDevices.DeviceService.constructor | src/main/java/de/pschiessle/artnet/sender/devices/DeviceService.java:19-25 | the store starts empty |
| ArtnetDevices.DeviceService.CreateDevice | src/main/java/de/pschiessle/artnet/sender/devices/DeviceService.java:51-58 | saves the request under a fresh id and the given UUID with createdAt = updatedAt = now, dropping any id it carried |
| ArtnetDevices.DeviceService.UpdateDevice | src/main/java/de/pschiessle/artnet/sender/devices/DeviceService.java:60-72 | an unknown id returns empty and changes nothing; otherwise only that row changes, to the patched record |
| ArtnetDevices.DeviceService.PopulateDatabase | src/main/java/de/pschiessle/artnet/sender/devices/DeviceService.java:78-105 | adds 21 devices after the existing ones: first the active local device on esp32.local, then "Test Device0".."Test Device19", all inactive on localhost; all are OTA compatible, on port 6454, universe 0 and subnet 0 |
| ArtnetDevices.SeedingAddsOneActiveDevice | src/main/java/de/pschiessle/artnet/sender/devices/DeviceService.java:82-102 | after seeding, the active devices are those active before plus the local device alone |
| StockService.StripTrailingZeros | src/main/java/de/pschiessle/lumenforge/components/stock/StockServiceImpl.java:88 | `stripTrailingZeros` leaves a zero as `BigDecimal.ZERO` and any other value without a trailing zero digit |
| StockService.DropZeroKeepsIntegral | src/main/java/de/pschiessle/lumenforge/components/stock/StockServiceImpl.java:88 | dropping one trailing zero digit keeps a value whole or fractional |
| StockService.StripScalePositiveIff | src/main/java/de/pschiessle/lumenforge/components/stock/StockServiceImpl.java:86-90 | after stripping the zeros, the scale is positive exactly when the value is fractional, so 1.0 and 2.00 pass the check but 1.5 does not |
| StockService.ValidateCount | src/main/java/de/pschiessle/lumenforge/components/stock/StockServiceImpl.java:82-92 | a count passes exactly when it is not negative and either fractions are allowed or it is whole; a negative count is refused with "stockCount must be >= 0" |
| StockService.ValidateCountExamples | src/main/java/de/pschiessle/lumenforge/components/stock/StockServiceImpl.java:82-92 | 1.0 passes without fractions, 1.5 fails without fractions and passes with them, and -1 always fails |
| StockService.StockServiceImpl.constructor | src/main/java/de/pschiessle/lumenforge/components/stock/StockServiceImpl.java:20-24 | the stock table starts empty over the given set of devices, so every stored count is trivially admissible for its flag |
| StockService.StockServiceImpl.UpsertByDeviceUuid | src/main/java/de/pschiessle/lumenforge/components/stock/StockServiceImpl.java:34-53 | a null unit type or count is refused before any lookup, and the count is checked against the request's own fractional flag; a device that has no stock and does not exist is not found; on success the device's stock is created or overwritten with unit, count and flag; a failure changes nothing; every stored count stays admissible for the flag it is stored with |
| StockService.StockServiceImpl.PatchCountByDeviceUuid | src/main/java/de/pschiessle/lumenforge/components/stock/StockServiceImpl.java:55-66 | a null count is refused and missing stock is not found; the count is checked against the stored flag; on success only the count changes; a failure changes nothing; every stored count stays admissible for its flag |
| StockService.StockServiceImpl.DeleteByDeviceUuid | src/main/java/de/pschiessle/lumenforge/components/stock/StockServiceImpl.java:68-74 | missing stock is not found and changes nothing; otherwise exactly that device's stock is removed, and every remaining count stays admissible for its flag |
| StockService.WritesKeepCountsValid | src/main/java/de/pschiessle/lumenforge/components/stock/StockServiceImpl.java:39-73 | upsert, patch and delete keep every stored count admissible for the flag it is stored with |
| Catalog.NormalizeRequired | src/main/java/de/pschiessle/lumenforge/components/category/CategoryService.java:61-66 | null or blank input is refused with "<field> must not be blank"; anything else is stored trimmed and non-empty |
| Catalog.NormalizeOptional | src/main/java/de/pschiessle/lumenforge/components/category/CategoryService.java:68-72 | null and blank become null; anything else becomes its non-empty trimmed form |
| Catalog.NormalizeIdempotent | src/main/java/de/pschiessle/lumenforge/components/category/CategoryService.java:61-72 | normalising a stored value gives it back, so saving an entry twice changes nothing |
| Catalog.OptionalAgreesWithRequired | src/main/java/de/pschiessle/lumenforge/components/category/CategoryService.java:61-72 | the optional and required forms agree on every value the required one accepts, and the optional one maps a refused value to null |
| Catalog.Search | src/main/java/de/pschiessle/lumenforge/components/category/CategoryService.java:22-28 | a null or blank query gives an empty page without a repository call; any other query is searched trimmed; the maintenance status and vendor searches follow the same rule |
| Catalog.CatalogService.constructor | src/main/java/de/pschiessle/lumenforge/components/category/CategoryService.java:15-20 | the table starts empty |
| Catalog.CatalogService.Apply | src/main/java/de/pschiessle/lumenforge/components/category/CategoryService.java:54-59 | `applyRequest` stores the normalised name and fails exactly when the name is blank; a category or maintenance status also stores the normalised description, while a vendor (VendorService.java lines 54-57) keeps its description |
| Catalog.CatalogService.Create | src/main/java/de/pschiessle/lumenforge/components/category/CategoryService.java:30-34 | a valid request is stored under a fresh id; a blank name is refused before anything is saved |
| Catalog.CatalogService.Update | src/main/java/de/pschiessle/lumenforge/components/category/CategoryService.java:36-41 | a missing id fails with EntityNotFoundException and changes nothing; otherwise the entry is re-normalised, or left unchanged if the name is blank |
| Catalog.CatalogService.Delete | src/main/java/de/pschiessle/lumenforge/components/category/CategoryService.java:43-47 | a missing id fails with EntityNotFoundException; otherwise exactly that entry is removed |
| Catalog.ApplyTwice | src/main/java/de/pschiessle/lumenforge/components/category/CategoryService.java:54-59 | applying the same request twice stores what applying it once does |
| DeviceUpdates.PatchTextCases | LumenForgeServer/LumenForgeServer/Inventory/Service/DeviceService.cs:71-84 | a null field leaves the text alone, a blank one clears it to null, and any other one replaces it |
| DeviceUpdates.PatchTextNeverBlank | LumenForgeServer/LumenForgeServer/Inventory/Service/DeviceService.cs:71-84 | a patched name, description or photo URL is never blank unless it was blank before, and patching twice with the same payload is patching once |
| DeviceUpdates.EnsureNonEmptyGuid | LumenForgeServer/LumenForgeServer/Inventory/Service/DeviceService.cs:339-350 | `Guid.Empty` gives a validation error keyed by the field name, and every other GUID passes |
| DeviceUpdates.ReferenceFault | LumenForgeServer/LumenForgeServer/Inventory/Service/DeviceService.cs:86-104 | a vendor or maintenance status GUID that is set fails exactly when it is empty (a validation error) or unknown (not found) |
| DeviceUpdates.DeviceUpdate | LumenForgeServer/LumenForgeServer/Inventory/Service/DeviceService.cs:61-116 | the update fails exactly when the vendor or status reference fails, and the vendor is checked first; on success the GUID, creation time, stock, parameters and category links are kept and the update time is now |
| DeviceUpdates.EmptyUpdateTouchesOnlyTime | LumenForgeServer/LumenForgeServer/Inventory/Service/DeviceService.cs:66-116 | a payload with every field null changes only the update time |
| DeviceUpdates.DeviceUpdateTwice | LumenForgeServer/LumenForgeServer/Inventory/Service/DeviceService.cs:66-116 | applying a payload to the device it produced changes nothing more |
| DeviceUpdates.FindKey | LumenForgeServer/LumenForgeServer/Inventory/Service/DeviceService.cs:176 | the lookup gives a position holding the key, or nothing exactly when no parameter has the key |
| DeviceUpdates.FindKeyUnique | LumenForgeServer/LumenForgeServer/Common/Database/AppDbContext.cs:486 | with the unique index on (device, key), the parameter found is the only one with that key |
| DeviceUpdates.UpsertSetsKey | LumenForgeServer/LumenForgeServer/Inventory/Service/DeviceService.cs:176-193 | after the upsert the keys are still unique and the key's one parameter holds the new value and time; every other parameter is unchanged |
| DeviceUpdates.UpsertPlacesKey | LumenForgeServer/LumenForgeServer/Inventory/Service/DeviceService.cs:176-193 | an existing key stays in place and keeps its creation time; a new key is appended after the existing parameters |
| DeviceUpdates.RemoveDropsKey | LumenForgeServer/LumenForgeServer/Inventory/Service/DeviceService.cs:224-230 | removing a key leaves the keys unique and the key absent, and takes away exactly that one parameter |
| DeviceUpdates.RemoveUndoesNewUpsert | LumenForgeServer/LumenForgeServer/Inventory/Service/DeviceService.cs:173-230 | removing a key that an upsert just added gives back the original parameters |
| DeviceUpdates.PatchStockKeepsCount | LumenForgeServer/LumenForgeServer/Inventory/Service/DeviceService.cs:243-268 | new stock takes the payload's count or 0 and its unit or UNIT; existing stock keeps its GUID and any field the payload leaves null; the count stays non-negative and a second patch changes nothing more |
| DeviceUpdates.IdsOfAllKnown | LumenForgeServer/LumenForgeServer/Inventory/Persistance/InventoryRepository.cs:42-51 | the lookup returns one id per GUID exactly when every GUID is a known category, and then the ids follow the GUIDs |
| DeviceUpdates.ResolveCategoryIds | LumenForgeServer/LumenForgeServer/Inventory/Service/DeviceService.cs:277-300 | an empty GUID gives the validation error; otherwise the result succeeds exactly when every GUID is known, with one id per distinct GUID |
| DeviceUpdates.ResolvedIdsAreDistinct | LumenForgeServer/LumenForgeServer/Inventory/Service/DeviceService.cs:289-299 | because category ids are unique, the resolved ids contain no duplicates |
| DeviceFactory.ParametersOf | LumenForgeServer/LumenForgeServer/Inventory/Factory/DeviceFactory.cs:33-37 | one parameter per payload entry, in order, with the key and value as given |
| DeviceFactory.Create | LumenForgeServer/LumenForgeServer/Inventory/Factory/DeviceFactory.cs:18-42 | the new device copies serial number, name, description, vendor id, purchase date, stock count and unit, its parameters and one link per category id in order, and leaves photo and price at their defaults |
| DeviceFactory.CreatedKeysUnique | LumenForgeServer/LumenForgeServer/Inventory/Factory/DeviceFactory.cs:33-37 | the new device meets the unique index on parameter keys exactly when the payload repeats no key |
| DeviceFactory.ResolvedLinksAreDistinct | LumenForgeServer/LumenForgeServer/Inventory/Factory/DeviceFactory.cs:38-41 | ids from a successful category resolution give distinct links, as the unique index on (device, category) requires |
| DeviceViews.ParameterViews | LumenForgeServer/LumenForgeServer/Inventory/Dto/View/DeviceView.cs:64-65 | one view per parameter, in order |
| DeviceViews.CategoryViews | LumenForgeServer/LumenForgeServer/Inventory/Dto/View/DeviceView.cs:59-60 | one view per linked category, in order |
| DeviceViews.FromEntity | LumenForgeServer/LumenForgeServer/Inventory/Dto/View/DeviceView.cs:57-87 | parameters are sorted by key and categories by name, each a rearrangement of the device's own; the stock view is null exactly when the device has no stock; every scalar, the vendor and the status are copied |
| DeviceViews.ViewListsEveryParameter | LumenForgeServer/LumenForgeServer/Inventory/Dto/View/DeviceView.cs:64-67 | every parameter of the device appears in the view, and every view entry comes from a parameter |
| InventoryServices.Unlink | LumenForgeServer/LumenForgeServer/Common/Database/AppDbContext.cs:498-501 | after the cascade a device keeps its links to every other category and has none to the deleted one |
| InventoryServices.Cascade | LumenForgeServer/LumenForgeServer/Common/Database/AppDbContext.cs:498-501 | the cascade keeps every device |
| InventoryServices.ReplaceDevice | LumenForgeServer/LumenForgeServer/Common/Database/AppDbContext.cs:435-440 | storing a changed device with unique parameter keys and a free serial number keeps the unique indexes and the category links |
| InventoryServices.ReplaceCategory | LumenForgeServer/LumenForgeServer/Common/Database/AppDbContext.cs:417-424 | renaming a category to a free name keeps names, GUIDs and ids unique and every link valid |
| InventoryServices.AddCategory | LumenForgeServer/LumenForgeServer/Common/Database/AppDbContext.cs:417-424 | a new category with a new GUID, a free name and the next id keeps the category indexes and the links |
| InventoryServices.CascadeKeepsLinks | LumenForgeServer/LumenForgeServer/Common/Database/AppDbContext.cs:489-503 | deleting a category keeps the device indexes, leaves no link to it, and every remaining link still has its category |
| InventoryServices.InventoryRepository.constructor | LumenForgeServer/LumenForgeServer/Common/Database/AppDbContext.cs:400-505 | an empty inventory meets every key, index and foreign key |
| InventoryServices.DeviceService.constructor | LumenForgeServer/LumenForgeServer/Inventory/Service/DeviceService.cs:17 | the service works on the given repository |
| InventoryServices.DeviceService.ApplyUpdate | LumenForgeServer/LumenForgeServer/Inventory/Service/DeviceService.cs:66-116 | the field-by-field changes give exactly the device `DeviceUpdate` describes, or its first failure |
| InventoryServices.DeviceService.UpdateDevice | LumenForgeServer/LumenForgeServer/Inventory/Service/DeviceService.cs:61-131 | an unknown device is not found; a failed reference check or a serial number already in use by another device saves nothing; otherwise only that device is replaced, and the repository's indexes still hold |
| InventoryServices.DeviceService.UpsertDeviceParameter | LumenForgeServer/LumenForgeServer/Inventory/Service/DeviceService.cs:167-207 | an unknown device is not found; otherwise the trimmed key gets the trimmed value, the device's update time moves, and the returned parameter is the stored one |
| InventoryServices.DeviceService.RemoveDeviceParameter | LumenForgeServer/LumenForgeServer/Inventory/Service/DeviceService.cs:209-234 | a blank key is refused before the lookup; an unknown device or key is not found and changes nothing; otherwise that parameter alone is removed |
| InventoryServices.DeviceService.UpdateStock | LumenForgeServer/LumenForgeServer/Inventory/Service/DeviceService.cs:236-275 | an unknown device is not found; otherwise the device's stock becomes the patched stock and its update time moves |
| InventoryServices.CategoryService.constructor | LumenForgeServer/LumenForgeServer/Inventory/Service/CategoryService.cs:15 | the service works on the given repository |
| InventoryServices.CategoryService.CreateCategory | LumenForgeServer/LumenForgeServer/Inventory/Service/CategoryService.cs:17-32 | a GUID or name already in use is a conflict and saves nothing; otherwise the category is stored with the next id |
| InventoryServices.CategoryService.UpdateCategory | LumenForgeServer/LumenForgeServer/Inventory/Service/CategoryService.cs:48-75 | an unknown category is not found; a null name is kept, the description is patched, and a name already in use is a conflict that saves nothing |
| InventoryServices.CategoryService.DeleteCategory | LumenForgeServer/LumenForgeServer/Inventory/Service/CategoryService.cs:77-84 | an unknown category is not found; otherwise it is removed and no device keeps a link to it |
| InventoryDtos.ValidateUpdateDevice | LumenForgeServer/LumenForgeServer/Inventory/Dto/Update/UpdateDeviceDto.cs:69-94 | the payload gets one result naming all eight members exactly when every field is null, and no result otherwise; an empty string counts as a value |
| InventoryDtos.EmptySerialNumberIsAnUpdate | LumenForgeServer/LumenForgeServer/Inventory/Dto/Update/UpdateDeviceDto.cs:14-17 | an empty serial number passes `Validate` and is refused only by the declared length of 1 to 256 |
| InventoryDtos.ValidateUpdateStock | LumenForgeServer/LumenForgeServer/Inventory/Dto/Update/UpdateStockDto.cs:28-36 | one result naming both members exactly when unit and count are both null |
| InventoryDtos.ValidateUpdateCategory | LumenForgeServer/LumenForgeServer/Inventory/Dto/Update/UpdateCategoryDto.cs:29-37 | one result naming both members exactly when name and description are both null |
| InventoryDtos.ValidateCreateCategory | LumenForgeServer/LumenForgeServer/Inventory/Validator/CategoryValidator.cs:15-18 | a name is valid exactly when it has 1 to 100 characters, white space included; a null name makes the check throw |
| InventoryDtos.CategoryCheckIsLaxerThanGroupCheck | LumenForgeServer/LumenForgeServer/Inventory/Dto/Update/UpdateCategoryDto.cs:29-37 | every payload the group check accepts the category check also accepts, and a white-space name is accepted only by the category check |
| DataAnnotations.NonEmptyLineIsNotBlank | LumenForgeServer/LumenForgeServer/Inventory/Dto/Update/UpdateDeviceDto.cs:14-15 | under `[StringLength(256, MinimumLength = 1)]` and `[RegularExpression(@".*\S.*")]`, a present field is never blank |
| AuthValidation.Parse | LumenForgeServer/LumenForgeServer/Auth/Validator/GroupRequestValidator.cs:86 | `Guid.Parse` succeeds exactly when the text holds a GUID in the hyphenated format, and returns that GUID |
| AuthValidation.ValidateAssignUserToGroupRequest | LumenForgeServer/LumenForgeServer/Auth/Validator/GroupRequestValidator.cs:18-48 | success exactly when the user id is not blank and the group text parses, returning the parsed GUID; otherwise one exception that names every failing field |
| AuthValidation.ValidateAddGroup | LumenForgeServer/LumenForgeServer/Auth/Validator/GroupRequestValidator.cs:50-72 | success exactly when the name is not blank and the description is not blank and has at least 10 characters; both failures are reported together |
| AuthValidation.ValidateGetGroup | LumenForgeServer/LumenForgeServer/Auth/Validator/GroupRequestValidator.cs:74-99 | success exactly when the text parses; a blank text is reported under both `groupGuidStr` and `groupGuid` |
| AuthValidation.ValidateDeleteGroup | LumenForgeServer/LumenForgeServer/Auth/Validator/GroupRequestValidator.cs:101-122 | stops at the first failure: a blank text is reported only under `groupGuidStr`, and a text that does not parse only under `groupGuid`, each with its own message |
| AuthValidation.BlankTextHasNoGuid | LumenForgeServer/LumenForgeServer/Auth/Validator/GroupRequestValidator.cs:31-32 | a null or blank text never parses, so the blank test adds no case of its own |
| AuthValidation.ValidateAddUser | LumenForgeServer/LumenForgeServer/Auth/Validator/UserValidator.cs:17-27 | only an empty id is refused, under the key `keycloakId`; white space passes |
| AuthValidation.ValidateAssignUserToGroupAsWritten | LumenForgeServer/LumenForgeServer/Auth/Validator/UserValidator.cs:34-51 | as written, a non-empty id is refused |
| AuthValidation.AssignAlwaysFails | LumenForgeServer/LumenForgeServer/Auth/Validator/UserValidator.cs:42-45 | as written, every input is refused, because a GUID's text is never empty |
| AuthValidation.ValidateAssignUserToGroup | LumenForgeServer/LumenForgeServer/Auth/Validator/UserValidator.cs:34-51 | with the intended tests, exactly the empty id is refused, as `ValidateAddUser` does |
| AuthValidation.ValidateAddUserRequest | LumenForgeServer/LumenForgeServer/Auth/Validator/UserRequestValidator.cs:13-23 | a null, empty or white-space id is refused under the single key `keycloakId` |
| AuthValidation.RequestValidatorIsStricter | LumenForgeServer/LumenForgeServer/Auth/Validator/UserRequestValidator.cs:13-23 | whatever the request validator accepts the plain one accepts, and a white-space id separates them |
| AuthValidation.ValidateNothing | LumenForgeServer/LumenForgeServer/Auth/Validator/UserRequestValidator.cs:25-38 | the get-user, get-roles and delete-user checks never refuse anything |
| AuthValidation.ValidateUpdateGroup | LumenForgeServer/LumenForgeServer/Auth/Dto/Command/UpdateGroupDto.cs:27-35 | one result exactly when both fields are null or white space |
| AuthValidation.DeclaredUpdateGroup | LumenForgeServer/LumenForgeServer/Auth/Dto/Command/UpdateGroupDto.cs:13-22 | under the declared attributes, the payload is refused exactly when both fields are null |
| RoleClaims.Declared | LumenForgeServer/LumenForgeServer/Auth/Domain/Role.cs:10-100 | `Enum.GetValues<Role>()` lists the 48 declared roles |
| RoleClaims.DeclaredIsEnumOrder | LumenForgeServer/LumenForgeServer/Auth/Domain/Role.cs:10-100 | the list holds every role exactly once |
| RoleClaims.RoleAtPosition | LumenForgeServer/LumenForgeServer/Auth/Domain/Role.cs:10-100 | a role's place in the declaration leads back to that role |
| RoleClaims.PositionOfRoleAt | LumenForgeServer/LumenForgeServer/Auth/Domain/Role.cs:10-100 | every place in the declaration holds the role that has that place |
| RoleClaims.AppRoles | LumenForgeServer/LumenForgeServer/Auth/Domain/RoleClaims.cs:10 | the filter keeps every role except `None`, and only roles from its input |
| RoleClaims.AppRolesKeepsAll | LumenForgeServer/LumenForgeServer/Auth/Domain/RoleClaims.cs:10 | a list without `None` passes the filter unchanged |
| RoleClaims.Names | LumenForgeServer/LumenForgeServer/Auth/Domain/RoleClaims.cs:11 | one name per role, in order |
| RoleClaims.AllAppRolesLists | LumenForgeServer/LumenForgeServer/Auth/Domain/RoleClaims.cs:8-12 | `AllAppRoles` names the 47 roles other than `None` in declaration order, and "None" is not among them |
| RoleClaims.NameIsNotNone | LumenForgeServer/LumenForgeServer/Auth/Domain/RoleClaims.cs:8-12 | only `None` is called "None" |
| RoleClaims.NameIsNotRealmAdmin | LumenForgeServer/LumenForgeServer/Auth/Domain/RoleClaims.cs:30-31 | no role of the enum is called "REALM_ADMIN" |
| RoleClaims.RoleClaimsOf | LumenForgeServer/LumenForgeServer/Auth/Domain/RoleClaims.cs:18 | one role claim per value, in order |
| RoleClaims.NonBlank | LumenForgeServer/LumenForgeServer/Auth/Domain/RoleClaims.cs:24 | the filter keeps exactly the names that are neither null nor white space, in order |
| RoleClaims.IsInRoleAfterAdding | LumenForgeServer/LumenForgeServer/Auth/Domain/RoleClaims.cs:14-28 | after role claims are added for some values, the principal is in a role exactly when it was before or the role is one of the values |
| RoleClaims.AddedForRolesMembers | LumenForgeServer/LumenForgeServer/Auth/Domain/RoleClaims.cs:16 | a value is added exactly when it names a listed role other than `None` |
| RoleClaims.AddedNamesListedRole | LumenForgeServer/LumenForgeServer/Auth/Domain/RoleClaims.cs:16 | every added value names a listed role other than `None` |
| RoleClaims.ListedRoleIsAdded | LumenForgeServer/LumenForgeServer/Auth/Domain/RoleClaims.cs:16 | every listed role other than `None` is added |
| RoleClaims.RolesAdded | LumenForgeServer/LumenForgeServer/Auth/Domain/RoleClaims.cs:14-20 | after `AddAppRoles(roles)` the principal is in a role exactly when it was before or some listed role other than `None` has that name; one claim is added per distinct role |
| RoleClaims.RolesNeverGrantRealmAdmin | LumenForgeServer/LumenForgeServer/Auth/Domain/RoleClaims.cs:30-31 | claims added from the enum never make a principal a realm administrator |
| RoleClaims.NamesAdded | LumenForgeServer/LumenForgeServer/Auth/Domain/RoleClaims.cs:22-28 | after `AddAppRoles(names)` the principal is in a role exactly when it was before or the name is listed and not blank; no name is added twice |
| RoleClaims.ClaimsIdentity.constructor | LumenForgeServer/LumenForgeServer/Auth/Domain/RoleClaims.cs:14 | a new identity has no claims |
| RoleClaims.ClaimsIdentity.AddClaim | LumenForgeServer/LumenForgeServer/Auth/Domain/RoleClaims.cs:18 | the claim is appended |
| RoleClaims.ClaimsIdentity.AddAppRoles | LumenForgeServer/LumenForgeServer/Auth/Domain/RoleClaims.cs:14-20 | one role claim per distinct role other than `None` is appended in first-occurrence order, after the existing claims |
| RoleClaims.ClaimsIdentity.AddAppRoleNames | LumenForgeServer/LumenForgeServer/Auth/Domain/RoleClaims.cs:22-28 | one role claim per distinct name that is not null or blank is appended in first-occurrence order, after the existing claims |
| Linq.Distinct | LumenForgeServer/LumenForgeServer/Inventory/Service/DeviceService.cs:289-291 | `Distinct()` keeps one copy of every element, adds none, and leaves no duplicates |
| Linq.DistinctOrder | LumenForgeServer/LumenForgeServer/Auth/Domain/RoleClaims.cs:16 | the elements that `Distinct()` keeps appear in the order of their first occurrence |
| Linq.DistinctOfDistinct | LumenForgeServer/LumenForgeServer/Auth/Domain/RoleClaims.cs:24 | a list without duplicates passes through `Distinct()` unchanged |
| Ordering.OrderBy | LumenForgeServer/LumenForgeServer/Inventory/Dto/View/DeviceView.cs:61 | `OrderBy` returns a rearrangement of its input |
| Ordering.OrderBySorted | LumenForgeServer/LumenForgeServer/Inventory/Dto/View/DeviceView.cs:59-67 | `OrderBy` lists its input in ascending ordinal order of the key |
| Ordering.LeTotal | LumenForgeServer/LumenForgeServer/Inventory/Dto/View/DeviceView.cs:66 | any two keys are ordered one way or the other |
| Ordering.LeAntisymmetric | LumenForgeServer/LumenForgeServer/Inventory/Dto/View/DeviceView.cs:66 | only equal keys are ordered both ways |
| DotNetGuid.Format | LumenForgeServer/LumenForgeServer/Auth/Validator/UserValidator.cs:42 | `ToString()` of a GUID always has 36 characters |
| DotNetGuid.TryParse | LumenForgeServer/LumenForgeServer/Auth/Validator/GroupRequestValidator.cs:31-32 | `Guid.TryParse` gives a GUID only for a text whose trim is 32 hex digits with hyphens at 8, 13, 18 and 23 |
| DotNetGuid.ParseFormat | LumenForgeServer/LumenForgeServer/Auth/Validator/UserValidator.cs:42 | the text of a GUID is never empty and parses back to the same GUID |
| DotNetGuid.FormatInjective | LumenForgeServer/LumenForgeServer/Auth/Validator/UserValidator.cs:42 | two GUIDs with the same text are the same GUID |
| DotNetGuid.BlankDoesNotParse | LumenForgeServer/LumenForgeServer/Auth/Validator/GroupRequestValidator.cs:31-32 | a blank text never parses |
| Text.Trim | src/main/java/de/pschiessle/lumenforge/components/category/CategoryService.java:65 | Java `trim()` and .NET `Trim()` (DeviceService.cs lines 173-174) return a string no longer than the input that neither starts nor ends with a strippable character |
| Text.TrimSlice | src/main/java/de/pschiessle/lumenforge/components/category/CategoryService.java:65 | the trimmed string is the contiguous stretch of the input that starts where the leading strippable run ends |
| Text.TrimCutStripped | src/main/java/de/pschiessle/lumenforge/components/category/CategoryService.java:65 | every character cut away before or after that stretch is strippable |
| Text.TrimEmptyIffAllStripped | src/main/java/de/pschiessle/lumenforge/components/category/CategoryService.java:62 | `trim().isEmpty()` holds exactly when every character is one that `trim` strips |
| Text.TrimIdempotent | src/main/java/de/pschiessle/lumenforge/components/category/CategoryService.java:65 | trimming twice gives what trimming once does |

## Left out

- Executors, timers, threads and async loops are not modelled. This covers `EffectManager.start`/`shutdown`, the 40 Hz scheduling of `EffectEngine.loopAt40Hz`, the asyncio and render threads of `model.py`, and the websocket messaging. Each loop body is modelled as one step.
- Network sends are not modelled. Art-Net unicasts and broadcasts and the pyartnet sends become entries appended to a log. The OTA HTTP request (DmxOtaViewController.java lines 114-135) is left out; the model stops at the URL it would call.
- Floating point is not modelled. Doubles and floats are reals. `Math.sin` and `ColorUtil.hsvToRgb` are function parameters, with only their ranges assumed, and float rounding is not modelled.
- The Python CHASE colour comes from `random`; it is a `pick` parameter.
- `pack_rgbw_frame` and `CHANNELS_PER_LED` of `dmx.py` are not part of this model; the frame packer is a parameter.
- The controller reports `frequency_hz` rounded to four decimals (`controller.py` line 58). The model reports the frequency unrounded.
- `ArtNetModel.start` raises `RuntimeError` when pyartnet is missing. That import check is not modelled.
- RSA keys, X.509 certificates, keystores, file writes and the Base64 encoder are not modelled. Only the PEM and C header text layouts are.
- Java's `split` drops trailing empty pieces. The model keeps them. They are blank lines, which the parser skips, so the parse is the same.
- JPA and Entity Framework persistence become in-memory maps. This leaves out `SaveChanges` timing, caching, the save-failure paths and the unsaved changes that a failed request leaves on tracked entities.
- The order of similarity search results is the database's. The model records only which trimmed query is searched.
- The repository pass-throughs `getAll`, `getCount`, `findById` and the stock `getByDeviceUuid` are not modelled.
- `Guid.Parse` and `TryParse` are modelled for the hyphenated "D" format only. The braces, parentheses and plain 32-digit formats are not modelled.
- `StockRequestDTO`, `ExceptionHelper.require`, `DeviceParameter`, `CreateStockDto` and `CreateDeviceParameterDto` are not part of this model. `require` is taken to throw on null with the given message.
- Clocks (`System.currentTimeMillis`, `SystemClock`) and GUID generation (`Guid.CreateVersion7`) are parameters.
- Logging is not modelled, including the `Console.WriteLine` in `ValidateAssignUserToGroupRequest`.
- A JWT claim of an unexpected shape throws `ClassCastException` in `KeycloakRoleConverter`. That case is not modelled; claims are typed.
- Role values are modelled as their declaration order, not their numbers; `Enum.GetValues` sorts by value, which here is the same order.
- `IsInRole` compares the claim type without regard to case. The model has one role claim type.
- Identities are flattened: one `ClaimsIdentity` stands for the principal.
- Ordering.OrderBy: uses ordinal string order, not .NET's culture-aware default comparer; its stability is described but not proved.
- The `[Url]` attribute on `PhotoUrl` and the database column lengths are not modelled.
- `SingleOrDefault` throws `InvalidOperationException` on duplicate keys. The unique index on (device, key) rules this out, so the case is not modelled.
- The C# `DeviceService` operations `CreateDevice`, `GetDevice`, `ListDevices`, `DeleteDevice`, `SetDeviceCategories` and `ResolveMaintenanceStatusIdForCreate` are not modelled beyond the factory and `ResolveCategoryIds`. `CategoryService.GetCategory` and `ListCategories` are not modelled either.
- `DeviceService.cs:29` calls `DeviceFactory.Create` with four arguments, but `DeviceFactory.cs:18` takes three. The model follows the factory's three-argument form.
- `GetCategoryIdsByUuidsAsync` returns ids in database order. The model returns them in the order of the distinct GUIDs.
- Database collation is not modelled: names are compared as exact strings.
- `CategoryFactory` is not part of this model; a new category's GUID and time stamps are parameters.
- The create-category endpoint answers 400 when `CategoryValidator` returns false (InventoryController.cs). Controllers are not part of this model; only the check itself is modelled.
- Effects.RenderPulse: its contract computes the level through `PulseLevel`, the model of the pulse's sine level, rather than restating the waveform.
- BuildOptions.Put: models `LinkedHashMap.put` on a list of entries, via the first index that holds the key.
- The realtime `Console` calls a two-argument `SinusEffectFunc` constructor, and `RealtimeChannel` calls `runEffect(level, now, dt)`. Neither matches `SinusEffectFunc`, so the channel's effect runner is a `Runner` parameter.
- `EffectFunc.clampToDMXRange` is not part of this model and is a parameter.
- `HashMap` iteration order in the realtime console's `tick` is modelled as ascending channel id.
- Effects.Render: a colour ramp is rendered by the corrected `RenderColorRamp`, not by `ColorRampEffect.render` as written, which sends red 0 (see "Findings"; `RampRenderAsWritten` is the code as written). `EffectBuilder` builds only pulses and running lights, so the manager never holds a colour ramp.
- Lengths count Unicode scalar values, while Java's `length()` and .NET's `Length` count UTF-16 code units, so text outside the Basic Multilingual Plane counts once here and twice in the source. This affects `[StringLength]` and `[MinLength]` (`DataAnnotations.StringLength`, `DataAnnotations.MinLength`) and the checks below.
- InventoryDtos.ValidateCreateCategory: its 1 to 100 limit counts scalar values; 100 emoji pass here, but .NET counts 200 code units and refuses them.
- AuthValidation.ValidateAddGroup: the description's minimum of 10 counts scalar values, not UTF-16 code units.
- Jvm.Trunc: has no saturation. Java's narrowing casts map NaN to 0 and clamp out-of-range doubles to the target type's minimum or maximum; the model truncates without bound.
- Jvm.ByteOfDouble: inherits `Trunc`'s missing saturation, so a double beyond the `int` range is not clamped before its low byte is taken.
- Jvm.Round: `Math.round` clamps to the `long` range and maps NaN to 0; the model rounds without bound.
- EffectBuilder.CreatePulseEffect: a JSON string holding a number (`"1.5"`) reads as 0, whereas Jackson's `asDouble()` and `asInt()` parse it; a fractional `ledCount` beyond the `int` range is truncated without Java's saturation (see `Jvm.Trunc`). `EffectBuilder.CreateRunningEffect` reads its options the same way.
- ArtnetDevices.DeviceService.DevicesByIsActive: its contract only restates the filter, so it has no row of its own.

## Findings

| source | as written | input that shows it | evidently intended | confidence | as-written member | corrected member |
|---|---|---|---|---|---|---|
| src/main/java/de/pschiessle/artnet/sender/effects/ColorRampEffect.java:42-45 | the red slot `base + 1` is written with the hue's red and then overwritten with 0 | a pure red hue at time 0 with one light: slot 1 is 0 | clear the white slot `base + 4`, so the red reaches the light | not executed | Effects.RampAsWrittenDropsRed, Effects.RampRedCounterexample | Effects.RampCarriesHue, Effects.RenderColorRamp |
| src/main/java/de/pschiessle/artnet/sender/web/DmxOtaViewController.java:73 | the mode field is appended with its own trailing `&`, and the next field adds another | mode 2 with address 1 gives `dmxMode=1&&dmxAddress=1` | `dmxMode=1&dmxAddress=1`, one `&` between fields | not executed | DmxOta.ModeThenAddressCounterexample, DmxOta.AsWrittenSplit | DmxOta.QuerySplitsIntoFields |
| src/main/java/de/pschiessle/artnet/sender/console/realtime/effectfuncs/SinusEffectFunc.java:5-6 | the time-offset key is the same string as the amplitude key | amplitude 2 and offset 5 under their own keys build offset 2 | a key of its own, so the offset parameter is read | not executed | Realtime.GetSinusEffectFunctionAsWritten, Realtime.TimeOffsetCounterexample | Realtime.GetSinusEffectFunction, Realtime.Build |
| LumenForgeServer/LumenForgeServer/Auth/Validator/UserValidator.cs:37-45 | both length tests are `is not 0`, so a non-empty id and every GUID are reported | any id and any GUID: the check always throws | refuse only an empty id, as the messages say | not executed | AuthValidation.ValidateAssignUserToGroupAsWritten, AuthValidation.AssignAlwaysFails | AuthValidation.ValidateAssignUserToGroup |
