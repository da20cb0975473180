/** The C# inventory entities as the services read and write them: a
    device with its stock, its key/value parameters and its category
    links, and the categories, vendors and maintenance statuses it refers
    to.  Instants and dates are numbers, decimals are reals. */
module InventoryDomain {
  import opened Wrappers
  import opened DotNetGuid
  import opened InventoryDtos

  /** A `DeviceParameter`: a key/value pair of one device. */
  datatype Parameter = Parameter(key: string, value: string, createdAt: int, updatedAt: int)

  /** The `Stock` row of a device. */
  datatype Stock = Stock(uuid: Guid, unit: StockUnitType, count: real, createdAt: int, updatedAt: int)

  /** A `Device`; `categoryIds` are the category ids of its
      `DeviceCategories` links, in link order. */
  datatype Device = Device(
    guid: Guid,
    serialNumber: string,
    name: Option<string>,
    description: Option<string>,
    photoUrl: Option<string>,
    vendorId: int,
    purchasePrice: real,
    purchaseDate: int,
    maintenanceStatusId: int,
    createdAt: int,
    updatedAt: int,
    stock: Option<Stock>,
    parameters: seq<Parameter>,
    categoryIds: seq<int>)

  /** A `Category`, with its database id. */
  datatype Category = Category(id: int, guid: Guid, name: string, description: Option<string>,
                               createdAt: int, updatedAt: int)

  datatype Vendor = Vendor(guid: Guid, name: string, createdAt: int, updatedAt: int)

  datatype MaintenanceStatus = MaintenanceStatus(uuid: Guid, name: string)

  /** The exceptions the inventory services throw.  `UniqueConstraintException`
      passes nothing to its base constructor, so it carries no message. */
  datatype Fault =
    | NotFound(message: string)
    | Validation(message: string, errors: map<string, seq<string>>)
    | UniqueConstraint

  /** No two parameters of a device share a key: the database's unique
      index on (device, key). */
  predicate KeysUnique(ps: seq<Parameter>) {
    forall i, j :: 0 <= i < j < |ps| ==> ps[i].key != ps[j].key
  }
}
