/** The Art-Net output path: the client that unicasts one DMX frame to every
    active device, and the manager that renders the current effect and
    hands the frame to the client.  The network send itself is an entry
    appended to the client's log. */
module Sender {
  import opened Wrappers
  import opened Effects
  import opened EffectBuilder
  import opened ArtnetDevices

  /** One `unicastDmx(address, subnet, universe, data)` call. */
  datatype Unicast = Unicast(address: Option<string>, subnet: int, universe: int, data: seq<int>)

  /** Unboxing the subnet and the universe succeeds. */
  predicate Addressable(d: Device) {
    d.artnetSubnet.Some? && d.artnetUniverse.Some?
  }

  function UnicastTo(d: Device, data: seq<int>): Unicast
    requires Addressable(d)
  {
    Unicast(d.artnetUrl, d.artnetSubnet.value, d.artnetUniverse.value, data)
  }

  /** The sends `forEach` completes over `devices`: one per device, in list
      order, up to the first device whose subnet or universe is null (where
      unboxing throws). */
  function Fanout(devices: seq<Device>, data: seq<int>): (r: seq<Unicast>)
    ensures |r| <= |devices|
    ensures forall i :: 0 <= i < |r| ==> Addressable(devices[i]) && r[i] == UnicastTo(devices[i], data)
    ensures |r| < |devices| ==> !Addressable(devices[|r|])
  {
    if devices == [] || !Addressable(devices[0]) then []
    else [UnicastTo(devices[0], data)] + Fanout(devices[1..], data)
  }

  /** The fan-out reaches device `i` when it reached every device before
      it: it sends there when the device is addressable and stops there
      otherwise. */
  lemma FanoutAt(devices: seq<Device>, data: seq<int>, i: int)
    requires 0 <= i < |devices| && i <= |Fanout(devices, data)|
    ensures Addressable(devices[i]) ==>
      i < |Fanout(devices, data)| && Fanout(devices, data)[i] == UnicastTo(devices[i], data)
    ensures !Addressable(devices[i]) ==> |Fanout(devices, data)| == i
  {
  }

  /** Only active devices are ever addressed, each with the frame unchanged. */
  lemma {:induction false} OnlyActiveDevicesAddressed(rows: seq<Device>, data: seq<int>, i: int)
    requires 0 <= i < |Fanout(WithActivity(rows, true), data)|
    ensures exists k :: (0 <= k < |rows| && rows[k].isActive == Some(true) && Addressable(rows[k]) &&
      Fanout(WithActivity(rows, true), data)[i] == UnicastTo(rows[k], data))
  {
    var active := WithActivity(rows, true);
    var d := active[i];
    assert d in active;
    var k :| 0 <= k < |rows| && rows[k] == d;
  }

  /** When every active device has a subnet and a universe, each of them
      receives exactly one send, in list order. */
  lemma EachAddressableDeviceOnce(devices: seq<Device>, data: seq<int>)
    requires forall i :: 0 <= i < |devices| ==> Addressable(devices[i])
    ensures |Fanout(devices, data)| == |devices|
  {
  }

  class ArtnetClient {
    const deviceService: DeviceService
    /** Every unicast sent so far, oldest first. */
    var sent: seq<Unicast>

    constructor (deviceService: DeviceService)
      ensures this.deviceService == deviceService && sent == []
    {
      this.deviceService := deviceService;
      sent := [];
    }

    /** `sendDMX`: nothing for a null frame; otherwise one unicast per active
        device.  `thrown` reports the null-unboxing exception that stops the
        loop at a device without subnet or universe. */
    method SendDmx(data: Option<seq<int>>) returns (thrown: bool)
      modifies this
      ensures data.None? ==> sent == old(sent) && !thrown
      ensures data.Some? ==>
        var active := deviceService.DevicesByIsActive(true);
        sent == old(sent) + Fanout(active, data.value) &&
        (thrown <==> |Fanout(active, data.value)| < |active|)
    {
      if data.None? {
        return false;
      }
      var frame := data.value;
      var active := deviceService.DevicesByIsActive(true);
      ghost var expected := Fanout(active, frame);
      var i := 0;
      while i < |active|
        invariant 0 <= i <= |expected|
        invariant sent == old(sent) + expected[..i]
      {
        var device := active[i];
        FanoutAt(active, frame, i);
        if device.artnetSubnet.None? || device.artnetUniverse.None? {
          assert expected[..i] == expected;
          assert deviceService.DevicesByIsActive(true) == active;
          return true;
        }
        assert expected[..i + 1] == expected[..i] + [expected[i]];
        sent := sent + [UnicastTo(device, frame)];
        i := i + 1;
      }
      assert expected[..i] == expected;
      assert deviceService.DevicesByIsActive(true) == active;
      return false;
    }
  }

  /** What one tick of the 44 Hz send loop did. */
  datatype TickOutcome =
    | NoEffect
    | Delivered
    /** `render` threw; nothing was sent. */
    | RenderFault(fault: RenderResult)
    /** A device without subnet or universe stopped the fan-out. */
    | SendFault

  class EffectManager {
    const artnetClient: ArtnetClient
    var curEffect: Option<Effect>

    constructor (artnetClient: ArtnetClient)
      ensures this.artnetClient == artnetClient && curEffect == None
    {
      this.artnetClient := artnetClient;
      curEffect := None;
    }

    /** Installs the effect the builder makes of the request; a rejected
        request clears the current effect instead of keeping it. */
    method SetEffect(effectType: EffectType, options: Option<JsonObject>)
      modifies this
      ensures curEffect == CreateEffectFromTypeAndJson(effectType, options)
    {
      curEffect := CreateEffectFromTypeAndJson(effectType, options);
    }

    /** One tick at time `now`: without an effect nothing is sent; otherwise
        the rendered frame goes to every active device. */
    method SendLoop(now: int, sin: real -> real, hsv: real -> (real, real, real))
      returns (outcome: TickOutcome)
      modifies artnetClient
      ensures curEffect.None? ==> outcome == NoEffect && artnetClient.sent == old(artnetClient.sent)
      ensures curEffect.Some? && !RenderSpec(curEffect.value, sin, hsv, now).Frame? ==>
        outcome == RenderFault(RenderSpec(curEffect.value, sin, hsv, now)) &&
        artnetClient.sent == old(artnetClient.sent)
      ensures curEffect.Some? && RenderSpec(curEffect.value, sin, hsv, now).Frame? ==>
        var active := artnetClient.deviceService.DevicesByIsActive(true);
        var sends := Fanout(active, RenderSpec(curEffect.value, sin, hsv, now).dmx);
        artnetClient.sent == old(artnetClient.sent) + sends &&
        (outcome == Delivered <==> |sends| == |active|) &&
        (outcome == SendFault <==> |sends| < |active|)
    {
      if curEffect.None? {
        return NoEffect;
      }
      var frame := Render(curEffect.value, sin, hsv, now);
      if !frame.Frame? {
        return RenderFault(frame);
      }
      var thrown := artnetClient.SendDmx(Some(frame.dmx));
      outcome := if thrown then SendFault else Delivered;
    }
  }

  /** Right after start-up the manager holds no effect, so a tick sends nothing. */
  method FreshManagerSendsNothing(client: ArtnetClient, now: int, sin: real -> real, hsv: real -> (real, real, real))
    returns (outcome: TickOutcome)
    modifies client
    ensures outcome == NoEffect && client.sent == old(client.sent)
  {
    var manager := new EffectManager(client);
    outcome := manager.SendLoop(now, sin, hsv);
  }
}
