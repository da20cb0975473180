/** The C# `DeviceFactory.Create`: a new device aggregate from a creation
    payload, the vendor id and the category ids already resolved.  Fields
    the factory leaves unset keep their defaults: no photo, price zero,
    maintenance status id zero, the epoch as every time stamp, and
    `Guid.Empty` as the stock's GUID. */
module DeviceFactory {
  import opened Wrappers
  import opened DotNetGuid
  import opened Linq
  import opened InventoryDtos
  import opened InventoryDomain
  import DeviceUpdates

  /** A parameter of the creation payload. */
  datatype CreateParameter = CreateParameter(key: string, value: string)

  /** The stock of the creation payload. */
  datatype CreateStock = CreateStock(count: real, unit: StockUnitType)

  /** `CreateDeviceDto`: the payload's required texts are never null. */
  datatype CreateDeviceDto = CreateDeviceDto(
    serialNumber: string,
    name: string,
    description: string,
    vendorGuid: Guid,
    purchaseDate: int,
    stock: CreateStock,
    parameters: seq<CreateParameter>,
    categoryGuids: seq<Guid>)

  /** One `DeviceParameter` per payload parameter, in order, with key and
      value as given: nothing is trimmed and nothing is merged. */
  function ParametersOf(ps: seq<CreateParameter>): (r: seq<Parameter>)
    ensures |r| == |ps|
    ensures forall i :: 0 <= i < |ps| ==> r[i] == Parameter(ps[i].key, ps[i].value, 0, 0)
  {
    if ps == [] then [] else [Parameter(ps[0].key, ps[0].value, 0, 0)] + ParametersOf(ps[1..])
  }

  /** `DeviceFactory.Create` with the GUID it draws given as `guid`.  One
      category link per id, in order, duplicates included. */
  function Create(dto: CreateDeviceDto, vendorId: int, categoryIds: seq<int>, guid: Guid): (d: Device)
    ensures d.guid == guid && d.serialNumber == dto.serialNumber
    ensures d.name == Some(dto.name) && d.description == Some(dto.description)
    ensures d.vendorId == vendorId && d.purchaseDate == dto.purchaseDate
    ensures d.photoUrl.None? && d.purchasePrice == 0.0
    ensures d.stock.Some? && d.stock.value.count == dto.stock.count && d.stock.value.unit == dto.stock.unit
    ensures |d.parameters| == |dto.parameters|
    ensures forall i :: 0 <= i < |dto.parameters| ==>
      d.parameters[i].key == dto.parameters[i].key && d.parameters[i].value == dto.parameters[i].value
    ensures d.categoryIds == categoryIds
  {
    Device(guid, dto.serialNumber, Some(dto.name), Some(dto.description), None, vendorId, 0.0,
           dto.purchaseDate, 0, 0, 0, Some(Stock(Empty, dto.stock.unit, dto.stock.count, 0, 0)),
           ParametersOf(dto.parameters), categoryIds)
  }

  /** The factory keeps repeated keys, so the new device meets the unique
      index on parameter keys exactly when the payload repeats no key. */
  lemma {:induction false} CreatedKeysUnique(dto: CreateDeviceDto, vendorId: int, categoryIds: seq<int>, guid: Guid)
    ensures KeysUnique(Create(dto, vendorId, categoryIds, guid).parameters) <==>
      forall i, j :: 0 <= i < j < |dto.parameters| ==> dto.parameters[i].key != dto.parameters[j].key
  {
    var ps := Create(dto, vendorId, categoryIds, guid).parameters;
    if KeysUnique(ps) {
      forall i, j | 0 <= i < j < |dto.parameters| ensures dto.parameters[i].key != dto.parameters[j].key {
        assert ps[i].key != ps[j].key;
      }
    }
  }

  /** Ids that `ResolveCategoryIds` accepted give the new device distinct
      category links, as the unique index on (device, category) needs. */
  lemma ResolvedLinksAreDistinct(dto: CreateDeviceDto, vendorId: int, categories: map<Guid, Category>, guid: Guid)
    requires forall g, h :: g in categories && h in categories && g != h ==> categories[g].id != categories[h].id
    requires DeviceUpdates.ResolveCategoryIds(dto.categoryGuids, categories).Success?
    ensures NoDuplicates(Create(dto, vendorId,
                                DeviceUpdates.ResolveCategoryIds(dto.categoryGuids, categories).value, guid).categoryIds)
  {
    DeviceUpdates.ResolvedIdsAreDistinct(dto.categoryGuids, categories);
  }
}
