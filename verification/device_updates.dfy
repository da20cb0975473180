/** What each C# `DeviceService` operation does to one device, as values:
    the optional-text patch, the parameter upsert and removal, the stock
    patch, the partial device update and the GUID checks.  The service
    classes apply these to the repository. */
module DeviceUpdates {
  import opened Wrappers
  import opened Text
  import opened DotNetGuid
  import opened InventoryDtos
  import opened InventoryDomain
  import opened Linq

  // ---------------------------------------------------------------------
  // Optional texts

  /** How `UpdateDevice` and `UpdateCategory` treat an optional text: null
      keeps the stored value, a blank value clears it, any other value
      replaces it. */
  function PatchText(current: Option<string>, patch: Option<string>): Option<string> {
    if patch.None? then current
    else if IsWhiteSpaceOnly(patch.value) then None
    else patch
  }

  /** The three cases of a patch. */
  lemma PatchTextCases(current: Option<string>, patch: Option<string>)
    ensures patch.None? ==> PatchText(current, patch) == current
    ensures IsNullOrWhiteSpace(patch) && patch.Some? ==> PatchText(current, patch).None?
    ensures !IsNullOrWhiteSpace(patch) ==> PatchText(current, patch) == patch
  {
  }

  /** A patch never stores a blank text, and applying it twice is applying
      it once. */
  lemma PatchTextNeverBlank(current: Option<string>, patch: Option<string>)
    ensures !IsNullOrWhiteSpace(current) || current.None? ==>
      PatchText(current, patch).None? || !IsNullOrWhiteSpace(PatchText(current, patch))
    ensures PatchText(PatchText(current, patch), patch) == PatchText(current, patch)
  {
  }

  // ---------------------------------------------------------------------
  // GUID references

  /** `EnsureNonEmptyGuid`: a validation error under the field's name for
      `Guid.Empty`, nothing for any other GUID. */
  function EnsureNonEmptyGuid(guid: Guid, field: string): (r: Option<Fault>)
    ensures r.Some? <==> guid == Empty
    ensures r.Some? ==> r.value.Validation? && r.value.errors.Keys == {field}
  {
    if guid == Empty then Some(Validation("Validation failed.", map[field := ["GUID must not be empty."]]))
    else None
  }

  /** The check `UpdateDevice` makes on an optional vendor or maintenance
      status GUID: none when it is null, the empty-GUID error, or not found
      when no row has it. */
  function ReferenceFault(guid: Option<Guid>, field: string, ids: map<Guid, int>, what: string): (r: Option<Fault>)
    ensures r.None? <==> guid.None? || (guid.value != Empty && guid.value in ids)
    ensures guid.Some? && guid.value == Empty ==> r == EnsureNonEmptyGuid(guid.value, field)
    ensures r.Some? && guid.value != Empty ==> r.value.NotFound?
  {
    if guid.None? then None
    else if guid.value == Empty then EnsureNonEmptyGuid(guid.value, field)
    else if guid.value !in ids then Some(NotFound(what + " '" + Format(guid.value) + "' not found."))
    else None
  }

  // ---------------------------------------------------------------------
  // UpdateDevice

  /** The device `UpdateDevice` saves, or the first check that fails: the
      vendor GUID is checked before the maintenance status GUID. */
  function DeviceUpdate(d: Device, dto: UpdateDeviceDto, vendorIds: map<Guid, int>,
                        statusIds: map<Guid, int>, now: int): (r: Result<Device, Fault>)
    ensures r.Failure? <==>
      ReferenceFault(dto.vendorGuid, "VendorGuid", vendorIds, "Vendor").Some? ||
      ReferenceFault(dto.maintenanceStatusUuid, "MaintenanceStatusUuid", statusIds, "Maintenance status").Some?
    ensures r.Failure? && ReferenceFault(dto.vendorGuid, "VendorGuid", vendorIds, "Vendor").Some? ==>
      r.error == ReferenceFault(dto.vendorGuid, "VendorGuid", vendorIds, "Vendor").value
    ensures r.Success? ==> (
      r.value.guid == d.guid && r.value.createdAt == d.createdAt && r.value.updatedAt == now &&
      r.value.stock == d.stock && r.value.parameters == d.parameters && r.value.categoryIds == d.categoryIds)
  {
    var vendorFault := ReferenceFault(dto.vendorGuid, "VendorGuid", vendorIds, "Vendor");
    var statusFault := ReferenceFault(dto.maintenanceStatusUuid, "MaintenanceStatusUuid", statusIds, "Maintenance status");
    if vendorFault.Some? then Failure(vendorFault.value)
    else if statusFault.Some? then Failure(statusFault.value)
    else Success(d.(
      serialNumber := dto.serialNumber.GetOr(d.serialNumber),
      name := PatchText(d.name, dto.name),
      description := PatchText(d.description, dto.description),
      photoUrl := PatchText(d.photoUrl, dto.photoUrl),
      vendorId := if dto.vendorGuid.Some? then vendorIds[dto.vendorGuid.value] else d.vendorId,
      maintenanceStatusId :=
        if dto.maintenanceStatusUuid.Some? then statusIds[dto.maintenanceStatusUuid.value] else d.maintenanceStatusId,
      purchasePrice := dto.purchasePrice.GetOr(d.purchasePrice),
      purchaseDate := dto.purchaseDate.GetOr(d.purchaseDate),
      updatedAt := now))
  }

  /** A payload with nothing in it only moves the update time forward. */
  lemma EmptyUpdateTouchesOnlyTime(d: Device, dto: UpdateDeviceDto, vendorIds: map<Guid, int>,
                                   statusIds: map<Guid, int>, now: int)
    requires NothingToUpdate(dto)
    ensures DeviceUpdate(d, dto, vendorIds, statusIds, now) == Success(d.(updatedAt := now))
  {
  }

  /** Applying the same payload again changes nothing more. */
  lemma {:induction false} DeviceUpdateTwice(d: Device, dto: UpdateDeviceDto, vendorIds: map<Guid, int>,
                                             statusIds: map<Guid, int>, now: int)
    ensures DeviceUpdate(d, dto, vendorIds, statusIds, now).Success? ==>
      DeviceUpdate(DeviceUpdate(d, dto, vendorIds, statusIds, now).value, dto, vendorIds, statusIds, now) ==
      DeviceUpdate(d, dto, vendorIds, statusIds, now)
  {
    var once := DeviceUpdate(d, dto, vendorIds, statusIds, now);
    if once.Success? {
      PatchTextNeverBlank(d.name, dto.name);
      PatchTextNeverBlank(d.description, dto.description);
      PatchTextNeverBlank(d.photoUrl, dto.photoUrl);
    }
  }

  // ---------------------------------------------------------------------
  // Parameters

  /** `SingleOrDefault(p => p.ParamKey == key)` when keys are unique: the
      position of the parameter with the key, if there is one. */
  function FindKey(ps: seq<Parameter>, key: string): (r: Option<nat>)
    ensures r.Some? ==> r.value < |ps| && ps[r.value].key == key
    ensures r.None? <==> forall i :: 0 <= i < |ps| ==> ps[i].key != key
  {
    if ps == [] then None
    else if ps[0].key == key then Some(0)
    else match FindKey(ps[1..], key)
      case None => None
      case Some(i) => Some(i + 1)
  }

  /** With unique keys the parameter found is the only one with the key. */
  lemma FindKeyUnique(ps: seq<Parameter>, key: string, i: int)
    requires KeysUnique(ps) && 0 <= i < |ps| && ps[i].key == key
    ensures FindKey(ps, key) == Some(i)
  {
  }

  /** The parameters after `UpsertDeviceParameter` with an already trimmed
      key and value: the parameter with the key gets the new value and
      update time, or a new one is added at the end. */
  function Upsert(ps: seq<Parameter>, key: string, value: string, now: int): seq<Parameter> {
    match FindKey(ps, key)
    case None => ps + [Parameter(key, value, now, now)]
    case Some(i) => ps[i := ps[i].(value := value, updatedAt := now)]
  }

  /** After an upsert exactly one parameter has the key and it holds the
      new value and update time; every other parameter is unchanged and in
      place. */
  lemma UpsertSetsKey(ps: seq<Parameter>, key: string, value: string, now: int)
    requires KeysUnique(ps)
    ensures KeysUnique(Upsert(ps, key, value, now))
    ensures FindKey(Upsert(ps, key, value, now), key).Some?
    ensures Upsert(ps, key, value, now)[FindKey(Upsert(ps, key, value, now), key).value].value == value
    ensures Upsert(ps, key, value, now)[FindKey(Upsert(ps, key, value, now), key).value].updatedAt == now
    ensures forall i :: 0 <= i < |ps| && ps[i].key != key ==> Upsert(ps, key, value, now)[i] == ps[i]
  {
    var r := Upsert(ps, key, value, now);
    match FindKey(ps, key)
    case None =>
      assert r[|ps|].key == key;
      FindKeyUnique(r, key, |ps|);
    case Some(i) =>
      FindKeyUnique(r, key, i);
  }

  /** An existing key stays where it is and keeps its creation time; a new
      key is added after the others. */
  lemma UpsertPlacesKey(ps: seq<Parameter>, key: string, value: string, now: int)
    requires KeysUnique(ps)
    ensures FindKey(ps, key).Some? ==>
      |Upsert(ps, key, value, now)| == |ps| &&
      FindKey(Upsert(ps, key, value, now), key) == FindKey(ps, key) &&
      Upsert(ps, key, value, now)[FindKey(ps, key).value].createdAt == ps[FindKey(ps, key).value].createdAt
    ensures FindKey(ps, key).None? ==>
      |Upsert(ps, key, value, now)| == |ps| + 1 && Upsert(ps, key, value, now)[..|ps|] == ps
  {
    if FindKey(ps, key).Some? {
      var i := FindKey(ps, key).value;
      FindKeyUnique(Upsert(ps, key, value, now), key, i);
    }
  }

  /** The parameters after `RemoveDeviceParameter` removed the one at `i`. */
  function RemoveAt(ps: seq<Parameter>, i: nat): (r: seq<Parameter>)
    requires i < |ps|
    ensures |r| == |ps| - 1
  {
    ps[..i] + ps[i + 1..]
  }

  /** After the removal no parameter has the key, so removing it again
      fails; the other parameters stay, in order. */
  lemma RemoveDropsKey(ps: seq<Parameter>, key: string)
    requires KeysUnique(ps) && FindKey(ps, key).Some?
    ensures KeysUnique(RemoveAt(ps, FindKey(ps, key).value))
    ensures FindKey(RemoveAt(ps, FindKey(ps, key).value), key).None?
    ensures multiset(RemoveAt(ps, FindKey(ps, key).value)) + multiset{ps[FindKey(ps, key).value]} == multiset(ps)
  {
    var i := FindKey(ps, key).value;
    var r := RemoveAt(ps, i);
    forall j | 0 <= j < |r| ensures r[j].key != key {
      if j < i {
        assert r[j] == ps[j];
      } else {
        assert r[j] == ps[j + 1];
      }
    }
    assert ps == ps[..i] + [ps[i]] + ps[i + 1..];
  }

  /** Removing a key that an upsert added restores the parameters. */
  lemma RemoveUndoesNewUpsert(ps: seq<Parameter>, key: string, value: string, now: int)
    requires KeysUnique(ps) && FindKey(ps, key).None?
    ensures FindKey(Upsert(ps, key, value, now), key) == Some(|ps|)
    ensures RemoveAt(Upsert(ps, key, value, now), |ps|) == ps
  {
    UpsertSetsKey(ps, key, value, now);
    FindKeyUnique(Upsert(ps, key, value, now), key, |ps|);
  }

  // ---------------------------------------------------------------------
  // Stock

  /** The stock after `UpdateStock`: missing stock is created with the
      given GUID, the count or 0 and the unit or `UNIT`; existing stock
      takes the fields that are set and keeps the rest. */
  function PatchStock(stock: Option<Stock>, dto: UpdateStockDto, now: int, freshUuid: Guid): Stock {
    if stock.None? then
      Stock(freshUuid, dto.stockUnitType.GetOr(UNIT), dto.stockCount.GetOr(0.0), now, now)
    else
      stock.value.(unit := dto.stockUnitType.GetOr(stock.value.unit),
                   count := dto.stockCount.GetOr(stock.value.count),
                   updatedAt := now)
  }

  /** The count stays at or above zero when the payload keeps to its
      declared range, existing stock keeps its GUID, and patching twice is
      patching once. */
  lemma PatchStockKeepsCount(stock: Option<Stock>, dto: UpdateStockDto, now: int, freshUuid: Guid)
    requires UpdateStockDeclared(dto)
    requires stock.Some? ==> stock.value.count >= 0.0
    ensures PatchStock(stock, dto, now, freshUuid).count >= 0.0
    ensures stock.Some? ==> PatchStock(stock, dto, now, freshUuid).uuid == stock.value.uuid
    ensures PatchStock(Some(PatchStock(stock, dto, now, freshUuid)), dto, now, freshUuid) ==
      PatchStock(stock, dto, now, freshUuid)
  {
  }

  // ---------------------------------------------------------------------
  // Category ids

  /** The ids of the categories, among `categories`, that have the given
      GUIDs, in the order of the GUIDs. */
  function IdsOf(gs: seq<Guid>, categories: map<Guid, Category>): (r: seq<int>)
    ensures |r| <= |gs|
  {
    if gs == [] then []
    else (if gs[0] in categories then [categories[gs[0]].id] else []) + IdsOf(gs[1..], categories)
  }

  /** One id per GUID exactly when every GUID is known, and then the ids
      line up with the GUIDs. */
  lemma {:induction false} IdsOfAllKnown(gs: seq<Guid>, categories: map<Guid, Category>)
    ensures |IdsOf(gs, categories)| == |gs| <==> forall i :: 0 <= i < |gs| ==> gs[i] in categories
    ensures |IdsOf(gs, categories)| == |gs| ==>
      forall i :: 0 <= i < |gs| ==> IdsOf(gs, categories)[i] == categories[gs[i]].id
  {
    if gs != [] {
      IdsOfAllKnown(gs[1..], categories);
      var r := IdsOf(gs, categories);
      if |r| == |gs| {
        assert gs[0] in categories;
        forall i | 0 <= i < |gs| ensures gs[i] in categories && r[i] == categories[gs[i]].id {
          if i > 0 {
            assert gs[i] == gs[1..][i - 1];
          }
        }
      }
      if forall i :: 0 <= i < |gs| ==> gs[i] in categories {
        assert gs[0] in categories;
        assert forall i :: 0 <= i < |gs[1..]| ==> gs[1..][i] in categories by {
          forall i | 0 <= i < |gs[1..]| ensures gs[1..][i] in categories {
            assert gs[1..][i] == gs[i + 1];
          }
        }
      }
    }
  }

  /** `ResolveCategoryIds`: an empty GUID is a validation error; otherwise
      duplicates are dropped, and the categories with the remaining GUIDs
      are looked up; if any is missing the lookup finds fewer ids than
      GUIDs and the result is not found. */
  function ResolveCategoryIds(guids: seq<Guid>, categories: map<Guid, Category>): (r: Result<seq<int>, Fault>)
    ensures r.Failure? && r.error.Validation? <==> Empty in guids
    ensures r.Success? <==> Empty !in guids && forall i :: 0 <= i < |guids| ==> guids[i] in categories
    ensures r.Success? ==> (
      |r.value| == |Distinct(guids)| &&
      forall i :: 0 <= i < |r.value| ==> r.value[i] == categories[Distinct(guids)[i]].id)
  {
    var unique := Distinct(guids);
    IdsOfAllKnown(unique, categories);
    if Empty in guids then
      Failure(Validation("Validation failed.", map["CategoryGuids" := ["Category GUID must not be empty."]]))
    else if |IdsOf(unique, categories)| != |unique| then
      Failure(NotFound("One or more categories were not found."))
    else
      Success(IdsOf(unique, categories))
  }

  /** Category ids are unique, so the resolved ids have no duplicates:
      the links a device gets from them are distinct. */
  lemma ResolvedIdsAreDistinct(guids: seq<Guid>, categories: map<Guid, Category>)
    requires forall g, h :: g in categories && h in categories && g != h ==> categories[g].id != categories[h].id
    requires ResolveCategoryIds(guids, categories).Success?
    ensures NoDuplicates(ResolveCategoryIds(guids, categories).value)
  {
    var ids := ResolveCategoryIds(guids, categories).value;
    var unique := Distinct(guids);
    forall i, j | 0 <= i < j < |ids| ensures ids[i] != ids[j] {
      assert unique[i] != unique[j];
    }
  }
}
