/** The Art-Net sender's device registry: devices that receive DMX frames,
    kept in an in-memory table standing in for the JPA repository.
    Boxed fields that may be null are `Option`s; timestamps are instants
    supplied by the caller, and the random UUIDs are parameters. */
module ArtnetDevices {
  import opened Wrappers
  import opened Text

  /** The default Art-Net UDP port the seeded devices use. */
  const ArtnetPort: int := 6454

  datatype Device = Device(
    id: Option<int>,
    uuid: Option<string>,
    isActive: Option<bool>,
    isDmxOtaV1Compatible: Option<bool>,
    name: Option<string>,
    artnetUrl: Option<string>,
    artnetPort: Option<int>,
    artnetUniverse: Option<int>,
    artnetSubnet: Option<int>,
    x509Certificate: Option<string>,
    createdAt: Option<int>,
    updatedAt: Option<int>)

  /** `new DeviceDTO()`: every field null. */
  const EmptyDevice: Device :=
    Device(None, None, None, None, None, None, None, None, None, None, None, None)

  /** A partial-update field: the incoming value when present, else the existing one. */
  function Overlay<T>(incoming: Option<T>, existing: Option<T>): Option<T> {
    if incoming.Some? then incoming else existing
  }

  /** The record `updateDevice` saves: seven fields taken from the request
      where it carries them, and a fresh update time. */
  function Patched(existing: Device, incoming: Device, now: int): Device {
    existing.(
      uuid := Overlay(incoming.uuid, existing.uuid),
      isActive := Overlay(incoming.isActive, existing.isActive),
      name := Overlay(incoming.name, existing.name),
      artnetUrl := Overlay(incoming.artnetUrl, existing.artnetUrl),
      artnetPort := Overlay(incoming.artnetPort, existing.artnetPort),
      artnetSubnet := Overlay(incoming.artnetSubnet, existing.artnetSubnet),
      artnetUniverse := Overlay(incoming.artnetUniverse, existing.artnetUniverse),
      updatedAt := Some(now))
  }

  /** A partial update never touches the identity, the OTA flag, the
      certificate or the creation time, and applying it twice is applying
      it once; an all-null request only refreshes the update time. */
  lemma PatchProperties(existing: Device, incoming: Device, now: int)
    ensures var p := Patched(existing, incoming, now);
      p.id == existing.id && p.isDmxOtaV1Compatible == existing.isDmxOtaV1Compatible &&
      p.x509Certificate == existing.x509Certificate && p.createdAt == existing.createdAt &&
      p.updatedAt == Some(now)
    ensures Patched(Patched(existing, incoming, now), incoming, now) == Patched(existing, incoming, now)
    ensures Patched(existing, EmptyDevice, now) == existing.(updatedAt := Some(now))
  {
  }

  /** The position of the first row with the given id. */
  function FindId(rows: seq<Device>, id: int): (r: Option<nat>)
    ensures r.Some? ==> r.value < |rows| && rows[r.value].id == Some(id)
    ensures r.None? ==> forall i :: 0 <= i < |rows| ==> rows[i].id != Some(id)
  {
    if rows == [] then None
    else if rows[0].id == Some(id) then Some(0)
    else
      match FindId(rows[1..], id)
      case None => None
      case Some(k) => Some(k + 1)
  }

  /** `findDeviceDTOSByIsActive`: the rows with the given activity flag, in
      table order.  A row whose flag is null matches neither value. */
  function WithActivity(rows: seq<Device>, isActive: bool): (r: seq<Device>)
    ensures |r| <= |rows|
    ensures forall d :: d in r <==> d in rows && d.isActive == Some(isActive)
  {
    if rows == [] then []
    else if rows[0].isActive == Some(isActive) then [rows[0]] + WithActivity(rows[1..], isActive)
    else WithActivity(rows[1..], isActive)
  }

  /** A matching row appears in the result as often as in the table, any
      other row not at all. */
  lemma {:induction false} WithActivityCount(rows: seq<Device>, isActive: bool, d: Device)
    ensures multiset(WithActivity(rows, isActive))[d] ==
      if d.isActive == Some(isActive) then multiset(rows)[d] else 0
  {
    if rows != [] {
      WithActivityCount(rows[1..], isActive, d);
      assert rows == [rows[0]] + rows[1..];
      assert multiset(rows) == multiset{rows[0]} + multiset(rows[1..]);
    }
  }

  /** One row is kept exactly when its flag matches; with
      `WithActivityAppend` this fixes the result row by row, in table order. */
  lemma WithActivitySingle(d: Device, isActive: bool)
    ensures WithActivity([d], isActive) == if d.isActive == Some(isActive) then [d] else []
  {
    assert [d][1..] == [];
  }

  /** The matching rows keep their relative table order: row `i` comes
      before row `j` in the result whenever `i < j`. */
  lemma {:induction false} WithActivityKeepsOrder(rows: seq<Device>, isActive: bool, i: nat, j: nat)
    requires i < j < |rows| && rows[i].isActive == Some(isActive) && rows[j].isActive == Some(isActive)
    ensures var p, q := |WithActivity(rows[..i], isActive)|, |WithActivity(rows[..j], isActive)|;
      p < q < |WithActivity(rows, isActive)| &&
      WithActivity(rows, isActive)[p] == rows[i] && WithActivity(rows, isActive)[q] == rows[j]
  {
    PrefixPosition(rows, isActive, i);
    PrefixPosition(rows, isActive, j);
    PrefixPosition(rows[..j], isActive, i);
    assert rows[..j][..i] == rows[..i];
  }

  /** A matching row sits in the result right after the matches before it. */
  lemma PrefixPosition(rows: seq<Device>, isActive: bool, k: nat)
    requires k < |rows| && rows[k].isActive == Some(isActive)
    ensures |WithActivity(rows[..k], isActive)| < |WithActivity(rows, isActive)|
    ensures WithActivity(rows, isActive)[|WithActivity(rows[..k], isActive)|] == rows[k]
  {
    assert rows == rows[..k] + ([rows[k]] + rows[k + 1..]);
    WithActivityAppend(rows[..k], [rows[k]] + rows[k + 1..], isActive);
    WithActivityAppend([rows[k]], rows[k + 1..], isActive);
    WithActivitySingle(rows[k], isActive);
  }

  lemma {:induction false} WithActivityAppend(rows: seq<Device>, extra: seq<Device>, isActive: bool)
    ensures WithActivity(rows + extra, isActive) == WithActivity(rows, isActive) + WithActivity(extra, isActive)
  {
    if rows != [] {
      assert (rows + extra)[1..] == rows[1..] + extra;
      WithActivityAppend(rows[1..], extra, isActive);
    } else {
      assert rows + extra == extra;
    }
  }

  lemma {:induction false} NoneWithActivity(rows: seq<Device>, isActive: bool)
    requires forall i :: 0 <= i < |rows| ==> rows[i].isActive != Some(isActive)
    ensures WithActivity(rows, isActive) == []
  {
    if rows != [] {
      NoneWithActivity(rows[1..], isActive);
    }
  }

  /** Every row has an id below `nextId`, and ids increase along the table. */
  predicate IdsOrdered(rows: seq<Device>, nextId: int) {
    (forall i :: 0 <= i < |rows| ==> rows[i].id.Some? && rows[i].id.value < nextId) &&
    (forall i, j :: 0 <= i < j < |rows| ==> rows[i].id.value < rows[j].id.value)
  }

  /** Rewriting a row without touching its id keeps the ids in order. */
  lemma ReplaceKeepsIds(rows: seq<Device>, nextId: int, k: nat, d: Device)
    requires IdsOrdered(rows, nextId) && k < |rows| && d.id == rows[k].id
    ensures IdsOrdered(rows[k := d], nextId)
  {
    var after := rows[k := d];
    assert forall i :: 0 <= i < |after| ==> after[i].id == rows[i].id;
  }

  class DeviceService {
    var rows: seq<Device>
    /** The identity the table assigns to the next saved device. */
    var nextId: int

    /** Every stored row has an id below `nextId`, and ids increase along the table. */
    ghost predicate Valid()
      reads this
    {
      IdsOrdered(rows, nextId)
    }

    constructor ()
      ensures Valid() && rows == [] && nextId == 1
    {
      rows := [];
      nextId := 1;
    }

    function DevicesByIsActive(isActive: bool): (r: seq<Device>)
      reads this
      ensures r == WithActivity(rows, isActive)
    {
      WithActivity(rows, isActive)
    }

    /** Saves a copy of the request under a new id and the given UUID, with
        both timestamps at `now`; whatever id the request carried is dropped. */
    method CreateDevice(request: Device, now: int, uuid: string) returns (saved: Device)
      requires Valid()
      modifies this
      ensures Valid()
      ensures saved == request.(id := Some(old(nextId)), uuid := Some(uuid), createdAt := Some(now), updatedAt := Some(now))
      ensures rows == old(rows) + [saved] && nextId == old(nextId) + 1
    {
      var device := request.(id := None);
      device := device.(uuid := Some(uuid));
      device := device.(createdAt := Some(now));
      device := device.(updatedAt := Some(now));
      saved := device.(id := Some(nextId));
      rows := rows + [saved];
      nextId := nextId + 1;
    }

    /** Applies the non-null fields of `incoming` to the device with the
        given id; an unknown id answers empty and changes nothing. */
    method UpdateDevice(id: int, incoming: Device, now: int) returns (r: Option<Device>)
      requires Valid()
      modifies this
      ensures Valid() && nextId == old(nextId)
      ensures FindId(old(rows), id).None? ==> r == None && rows == old(rows)
      ensures FindId(old(rows), id).Some? ==>
        var k := FindId(old(rows), id).value;
        r == Some(Patched(old(rows)[k], incoming, now)) && rows == old(rows)[k := r.value]
    {
      var found := FindId(rows, id);
      if found.None? {
        return None;
      }
      var k := found.value;
      var existing := rows[k];
      if incoming.uuid.Some? { existing := existing.(uuid := incoming.uuid); }
      if incoming.isActive.Some? { existing := existing.(isActive := incoming.isActive); }
      if incoming.name.Some? { existing := existing.(name := incoming.name); }
      if incoming.artnetUrl.Some? { existing := existing.(artnetUrl := incoming.artnetUrl); }
      if incoming.artnetPort.Some? { existing := existing.(artnetPort := incoming.artnetPort); }
      if incoming.artnetSubnet.Some? { existing := existing.(artnetSubnet := incoming.artnetSubnet); }
      if incoming.artnetUniverse.Some? { existing := existing.(artnetUniverse := incoming.artnetUniverse); }
      existing := existing.(updatedAt := Some(now));
      assert existing == Patched(rows[k], incoming, now);
      ReplaceKeepsIds(rows, nextId, k, existing);
      rows := rows[k := existing];
      return Some(existing);
    }

    /** Seeds the table: one active device at `esp32.local`, then twenty
        inactive test devices at `localhost`; the i-th seeded device gets
        the UUID `uuids(i)`. */
    method PopulateDatabase(now: int, uuids: nat -> string)
      requires Valid()
      modifies this
      ensures Valid()
      ensures |rows| == |old(rows)| + 21 && rows[..|old(rows)|] == old(rows)
      ensures var added := rows[|old(rows)|..];
        added[0].isActive == Some(true) && added[0].name == Some("My Local Device") &&
        added[0].artnetUrl == Some("esp32.local") &&
        forall i :: 1 <= i < |added| ==>
          added[i].isActive == Some(false) && added[i].artnetUrl == Some("localhost") &&
          added[i].name == Some("Test Device" + IntToString(i - 1))
      ensures forall i :: |old(rows)| <= i < |rows| ==>
        rows[i].isDmxOtaV1Compatible == Some(true) && rows[i].artnetPort == Some(ArtnetPort) &&
        rows[i].artnetUniverse == Some(0) && rows[i].artnetSubnet == Some(0)
    {
      var local := EmptyDevice.(
        name := Some("My Local Device"), isActive := Some(true), isDmxOtaV1Compatible := Some(true),
        artnetUrl := Some("esp32.local"), artnetUniverse := Some(0), artnetPort := Some(ArtnetPort),
        artnetSubnet := Some(0));
      var _ := CreateDevice(local, now, uuids(0));
      var i := 0;
      while i < 20
        invariant 0 <= i <= 20 && Valid()
        invariant |rows| == |old(rows)| + 1 + i && rows[..|old(rows)|] == old(rows)
        invariant rows[|old(rows)|].isActive == Some(true) && rows[|old(rows)|].name == Some("My Local Device")
        invariant rows[|old(rows)|].artnetUrl == Some("esp32.local")
        invariant forall j :: |old(rows)| < j < |rows| ==>
          rows[j].isActive == Some(false) && rows[j].artnetUrl == Some("localhost") &&
          rows[j].name == Some("Test Device" + IntToString(j - |old(rows)| - 1))
        invariant forall j :: |old(rows)| <= j < |rows| ==>
          rows[j].isDmxOtaV1Compatible == Some(true) && rows[j].artnetPort == Some(ArtnetPort) &&
          rows[j].artnetUniverse == Some(0) && rows[j].artnetSubnet == Some(0)
      {
        var test := EmptyDevice.(
          name := Some("Test Device" + IntToString(i)), isActive := Some(false), isDmxOtaV1Compatible := Some(true),
          artnetUrl := Some("localhost"), artnetUniverse := Some(0), artnetPort := Some(ArtnetPort),
          artnetSubnet := Some(0));
        var _ := CreateDevice(test, now, uuids(i + 1));
        i := i + 1;
      }
    }
  }

  /** After seeding, the active devices are the ones active before plus the
      local device alone. */
  lemma {:induction false} SeedingAddsOneActiveDevice(before: seq<Device>, after: seq<Device>)
    requires |after| == |before| + 21 && after[..|before|] == before
    requires after[|before|].isActive == Some(true)
    requires forall i :: |before| < i < |after| ==> after[i].isActive == Some(false)
    ensures WithActivity(after, true) == WithActivity(before, true) + [after[|before|]]
  {
    var added := after[|before|..];
    assert after == before + added;
    WithActivityAppend(before, added, true);
    assert added == [added[0]] + added[1..];
    var rest := added[1..];
    assert forall j :: 0 <= j < |rest| ==> rest[j] == after[|before| + 1 + j];
    NoneWithActivity(rest, true);
  }
}
