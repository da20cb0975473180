/** The C# read models: `DeviceView.FromEntity` and the views it is built
    from.  A device's parameters are listed by key and its categories by
    name, each with `OrderBy`. */
module DeviceViews {
  import opened Wrappers
  import opened DotNetGuid
  import opened InventoryDtos
  import opened InventoryDomain
  import opened Ordering

  datatype ParameterView = ParameterView(key: string, value: string, createdAt: int, updatedAt: int)

  datatype CategoryView = CategoryView(guid: Guid, name: string, description: Option<string>,
                                       createdAt: int, updatedAt: int)

  datatype StockView = StockView(uuid: Guid, unit: StockUnitType, count: real, createdAt: int, updatedAt: int)

  datatype VendorView = VendorView(guid: Guid, name: string, createdAt: int, updatedAt: int)

  datatype DeviceView = DeviceView(
    guid: Guid,
    serialNumber: string,
    name: Option<string>,
    description: Option<string>,
    photoUrl: Option<string>,
    purchasePrice: real,
    purchaseDate: int,
    maintenanceStatusUuid: Guid,
    maintenanceStatusName: string,
    vendor: VendorView,
    stock: Option<StockView>,
    parameters: seq<ParameterView>,
    categories: seq<CategoryView>,
    createdAt: int,
    updatedAt: int)

  function ParameterViewOf(p: Parameter): ParameterView {
    ParameterView(p.key, p.value, p.createdAt, p.updatedAt)
  }

  function CategoryViewOf(c: Category): CategoryView {
    CategoryView(c.guid, c.name, c.description, c.createdAt, c.updatedAt)
  }

  function StockViewOf(s: Stock): StockView {
    StockView(s.uuid, s.unit, s.count, s.createdAt, s.updatedAt)
  }

  function VendorViewOf(v: Vendor): VendorView {
    VendorView(v.guid, v.name, v.createdAt, v.updatedAt)
  }

  /** `Select(DeviceParameterView.FromEntity)`. */
  function ParameterViews(ps: seq<Parameter>): (r: seq<ParameterView>)
    ensures |r| == |ps|
    ensures forall i :: 0 <= i < |ps| ==> r[i] == ParameterViewOf(ps[i])
  {
    if ps == [] then [] else [ParameterViewOf(ps[0])] + ParameterViews(ps[1..])
  }

  /** `Select(dc => CategoryView.FromEntity(dc.Category))`. */
  function CategoryViews(cs: seq<Category>): (r: seq<CategoryView>)
    ensures |r| == |cs|
    ensures forall i :: 0 <= i < |cs| ==> r[i] == CategoryViewOf(cs[i])
  {
    if cs == [] then [] else [CategoryViewOf(cs[0])] + CategoryViews(cs[1..])
  }

  function ParameterKey(p: ParameterView): string {
    p.key
  }

  function CategoryName(c: CategoryView): string {
    c.name
  }

  /** `linked` holds the category of each of the device's links, in link
      order, as the loaded navigation properties do. */
  predicate LinkedTo(device: Device, linked: seq<Category>) {
    |linked| == |device.categoryIds| && forall i :: 0 <= i < |linked| ==> linked[i].id == device.categoryIds[i]
  }

  /** `DeviceView.FromEntity`, given the device's vendor, its maintenance
      status and the categories of its links: the parameters in ascending
      key order and the categories in ascending name order, each a
      rearrangement of the device's own, and every scalar copied. */
  function FromEntity(device: Device, vendor: Vendor, status: MaintenanceStatus, linked: seq<Category>): (v: DeviceView)
    ensures SortedBy(v.parameters, ParameterKey)
    ensures multiset(v.parameters) == multiset(ParameterViews(device.parameters))
    ensures |v.parameters| == |device.parameters|
    ensures SortedBy(v.categories, CategoryName)
    ensures multiset(v.categories) == multiset(CategoryViews(linked))
    ensures LinkedTo(device, linked) ==> |v.categories| == |device.categoryIds|
    ensures v.stock.None? <==> device.stock.None?
    ensures device.stock.Some? ==> v.stock == Some(StockViewOf(device.stock.value))
    ensures v.guid == device.guid && v.serialNumber == device.serialNumber
    ensures v.name == device.name && v.description == device.description && v.photoUrl == device.photoUrl
    ensures v.purchasePrice == device.purchasePrice && v.purchaseDate == device.purchaseDate
    ensures v.maintenanceStatusUuid == status.uuid && v.maintenanceStatusName == status.name
    ensures v.vendor == VendorViewOf(vendor)
    ensures v.createdAt == device.createdAt && v.updatedAt == device.updatedAt
  {
    var categories := OrderBy(CategoryViews(linked), CategoryName);
    var parameters := OrderBy(ParameterViews(device.parameters), ParameterKey);
    OrderBySorted(CategoryViews(linked), CategoryName);
    OrderBySorted(ParameterViews(device.parameters), ParameterKey);
    DeviceView(device.guid, device.serialNumber, device.name, device.description, device.photoUrl,
               device.purchasePrice, device.purchaseDate, status.uuid, status.name, VendorViewOf(vendor),
               if device.stock.None? then None else Some(StockViewOf(device.stock.value)),
               parameters, categories, device.createdAt, device.updatedAt)
  }

  /** Every parameter of the device shows up in the view, and every entry
      of the view comes from a parameter of the device. */
  lemma ViewListsEveryParameter(device: Device, vendor: Vendor, status: MaintenanceStatus, linked: seq<Category>)
    ensures forall i :: 0 <= i < |device.parameters| ==>
      ParameterViewOf(device.parameters[i]) in FromEntity(device, vendor, status, linked).parameters
    ensures forall j :: 0 <= j < |FromEntity(device, vendor, status, linked).parameters| ==>
      exists i :: (0 <= i < |device.parameters| &&
        FromEntity(device, vendor, status, linked).parameters[j] == ParameterViewOf(device.parameters[i]))
  {
    var views := ParameterViews(device.parameters);
    var shown := FromEntity(device, vendor, status, linked).parameters;
    forall i | 0 <= i < |device.parameters| ensures ParameterViewOf(device.parameters[i]) in shown {
      assert views[i] in multiset(views);
    }
    forall j | 0 <= j < |shown|
      ensures exists i :: 0 <= i < |device.parameters| && shown[j] == ParameterViewOf(device.parameters[i])
    {
      assert shown[j] in multiset(views);
      var i :| 0 <= i < |views| && views[i] == shown[j];
    }
  }
}
