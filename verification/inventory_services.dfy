/** The C# inventory services over an in-memory repository.  The
    repository's maps stand for the saved database rows; a service method
    either saves all its changes or, when it throws, none of them, since
    the unsaved changes of a request are discarded with its context. */
module InventoryServices {
  import opened Wrappers
  import opened Text
  import opened DotNetGuid
  import opened InventoryDtos
  import opened InventoryDomain
  import opened DeviceUpdates

  /** Some other device already has the serial number: saving would break
      the unique index on `SerialNumber`. */
  predicate SerialTaken(devices: map<Guid, Device>, self: Guid, serial: string) {
    exists h :: h in devices && h != self && devices[h].serialNumber == serial
  }

  /** Some other category already has the name: saving would break the
      unique index on `Name`. */
  predicate NameTaken(categories: map<Guid, Category>, self: Guid, name: string) {
    exists h :: h in categories && h != self && categories[h].name == name
  }

  /** The ids of all categories. */
  function CategoryIds(categories: map<Guid, Category>): set<int> {
    set g | g in categories :: categories[g].id
  }

  /** The links of a device once category `id` is deleted: the cascade
      removes every link to it and keeps the others in order. */
  function Unlink(ids: seq<int>, id: int): (r: seq<int>)
    ensures forall i :: 0 <= i < |r| ==> r[i] in ids && r[i] != id
    ensures forall i :: 0 <= i < |ids| && ids[i] != id ==> ids[i] in r
  {
    if ids == [] then []
    else (if ids[0] == id then [] else [ids[0]]) + Unlink(ids[1..], id)
  }

  /** Every device after the cascade that deletes category `id`. */
  function Cascade(devices: map<Guid, Device>, id: int): (r: map<Guid, Device>)
    ensures r.Keys == devices.Keys
  {
    map g | g in devices :: devices[g].(categoryIds := Unlink(devices[g].categoryIds, id))
  }

  /** Devices are stored under their own GUIDs, their parameter keys are
      unique and so are their serial numbers. */
  predicate DevicesConsistent(devices: map<Guid, Device>) {
    (forall g :: g in devices ==> devices[g].guid == g && KeysUnique(devices[g].parameters)) &&
    (forall g, h :: g in devices && h in devices && g != h ==> devices[g].serialNumber != devices[h].serialNumber)
  }

  /** Categories are stored under their own GUIDs, with unique names and
      unique ids below the next id. */
  predicate CategoriesConsistent(categories: map<Guid, Category>, nextCategoryId: int) {
    (forall g :: g in categories ==> categories[g].guid == g && categories[g].id < nextCategoryId) &&
    (forall g, h :: g in categories && h in categories && g != h ==>
      categories[g].name != categories[h].name && categories[g].id != categories[h].id)
  }

  /** Every category link refers to a category. */
  predicate LinksConsistent(devices: map<Guid, Device>, categories: map<Guid, Category>) {
    forall g, i :: g in devices && 0 <= i < |devices[g].categoryIds| ==>
      devices[g].categoryIds[i] in CategoryIds(categories)
  }

  /** Storing a changed device under its own GUID keeps the devices
      consistent when its parameter keys are unique and its serial number
      is free, and keeps the links when they are the old ones. */
  lemma ReplaceDevice(devices: map<Guid, Device>, categories: map<Guid, Category>, g: Guid, d: Device)
    requires DevicesConsistent(devices) && LinksConsistent(devices, categories) && g in devices
    requires d.guid == g && KeysUnique(d.parameters) && !SerialTaken(devices, g, d.serialNumber)
    requires d.categoryIds == devices[g].categoryIds
    ensures DevicesConsistent(devices[g := d]) && LinksConsistent(devices[g := d], categories)
  {
  }

  /** Keeping every category with its id keeps every id. */
  lemma CategoryIdsGrow(a: map<Guid, Category>, b: map<Guid, Category>)
    requires forall g :: g in a ==> g in b && b[g].id == a[g].id
    ensures CategoryIds(a) <= CategoryIds(b)
  {
    forall x | x in CategoryIds(a) ensures x in CategoryIds(b) {
      var g :| g in a && a[g].id == x;
      assert b[g].id == x;
    }
  }

  /** Storing a changed category under its own GUID, with its id and a
      name no other category has, keeps the categories and the links
      consistent. */
  lemma ReplaceCategory(devices: map<Guid, Device>, categories: map<Guid, Category>, next: int, g: Guid, c: Category)
    requires CategoriesConsistent(categories, next) && LinksConsistent(devices, categories) && g in categories
    requires c.guid == g && c.id == categories[g].id && !NameTaken(categories, g, c.name)
    ensures CategoriesConsistent(categories[g := c], next) && LinksConsistent(devices, categories[g := c])
  {
    CategoryIdsGrow(categories, categories[g := c]);
  }

  /** Adding a category under a new GUID, with a new name and the next id,
      keeps the categories and the links consistent. */
  lemma AddCategory(devices: map<Guid, Device>, categories: map<Guid, Category>, next: int, c: Category)
    requires CategoriesConsistent(categories, next) && LinksConsistent(devices, categories)
    requires c.guid !in categories && !NameTaken(categories, c.guid, c.name) && c.id == next
    ensures CategoriesConsistent(categories[c.guid := c], next + 1)
    ensures LinksConsistent(devices, categories[c.guid := c])
  {
    CategoryIdsGrow(categories, categories[c.guid := c]);
  }

  /** The cascade keeps the devices consistent, and no link is left to the
      deleted category while every other link still has its category. */
  lemma CascadeKeepsLinks(devices: map<Guid, Device>, categories: map<Guid, Category>, next: int, c: Guid)
    requires DevicesConsistent(devices) && CategoriesConsistent(categories, next)
    requires LinksConsistent(devices, categories) && c in categories
    ensures DevicesConsistent(Cascade(devices, categories[c].id))
    ensures LinksConsistent(Cascade(devices, categories[c].id), categories - {c})
    ensures categories[c].id !in CategoryIds(categories - {c})
  {
    var id := categories[c].id;
    var after := Cascade(devices, id);
    var rest := categories - {c};
    forall g, i | g in after && 0 <= i < |after[g].categoryIds|
      ensures after[g].categoryIds[i] in CategoryIds(rest)
    {
      var x := after[g].categoryIds[i];
      assert x in devices[g].categoryIds && x != id;
      var j :| 0 <= j < |devices[g].categoryIds| && devices[g].categoryIds[j] == x;
      var h :| h in categories && categories[h].id == x;
      assert h in rest;
    }
    forall h | h in rest ensures rest[h].id != id {
      assert h != c;
    }
  }

  /** The saved inventory rows, keyed by their GUIDs. */
  class InventoryRepository {
    var devices: map<Guid, Device>
    var vendorIds: map<Guid, int>
    var maintenanceStatusIds: map<Guid, int>
    var categories: map<Guid, Category>
    /** The id the database gives the next category. */
    var nextCategoryId: int

    /** The database's keys, indexes and foreign keys. */
    ghost predicate Valid()
      reads this
    {
      DevicesConsistent(devices) && CategoriesConsistent(categories, nextCategoryId) &&
      LinksConsistent(devices, categories)
    }

    /** An empty database. */
    constructor ()
      ensures Valid()
      ensures devices == map[] && vendorIds == map[] && maintenanceStatusIds == map[]
      ensures categories == map[] && nextCategoryId == 1
    {
      devices := map[];
      vendorIds := map[];
      maintenanceStatusIds := map[];
      categories := map[];
      nextCategoryId := 1;
    }
  }

  /** `DeviceService`: the operations on one device. */
  class DeviceService {
    const repository: InventoryRepository

    constructor (repository: InventoryRepository)
      ensures this.repository == repository
    {
      this.repository := repository;
    }

    /** The changes `UpdateDevice` makes to the tracked device, field by
        field, before it saves them: the first missing or empty vendor or
        maintenance status GUID ends the update. */
    method ApplyUpdate(stored: Device, dto: UpdateDeviceDto, now: int) returns (r: Result<Device, Fault>)
      ensures r == DeviceUpdate(stored, dto, repository.vendorIds, repository.maintenanceStatusIds, now)
    {
      ghost var vendorFault := ReferenceFault(dto.vendorGuid, "VendorGuid", repository.vendorIds, "Vendor");
      ghost var statusFault := ReferenceFault(dto.maintenanceStatusUuid, "MaintenanceStatusUuid",
                                              repository.maintenanceStatusIds, "Maintenance status");
      var serialNumber := stored.serialNumber;
      if dto.serialNumber.Some? {
        serialNumber := dto.serialNumber.value;
      }
      assert serialNumber == dto.serialNumber.GetOr(stored.serialNumber);
      var name := stored.name;
      if dto.name.Some? {
        name := if IsWhiteSpaceOnly(dto.name.value) then None else dto.name;
      }
      assert name == PatchText(stored.name, dto.name);
      var description := stored.description;
      if dto.description.Some? {
        description := if IsWhiteSpaceOnly(dto.description.value) then None else dto.description;
      }
      assert description == PatchText(stored.description, dto.description);
      var photoUrl := stored.photoUrl;
      if dto.photoUrl.Some? {
        photoUrl := if IsWhiteSpaceOnly(dto.photoUrl.value) then None else dto.photoUrl;
      }
      assert photoUrl == PatchText(stored.photoUrl, dto.photoUrl);
      var vendorId := stored.vendorId;
      if dto.vendorGuid.Some? {
        var fault := EnsureNonEmptyGuid(dto.vendorGuid.value, "VendorGuid");
        if fault.Some? {
          assert vendorFault == fault;
          return Failure(fault.value);
        }
        if dto.vendorGuid.value !in repository.vendorIds {
          assert vendorFault == Some(NotFound("Vendor '" + Format(dto.vendorGuid.value) + "' not found.")) by {
            assert "Vendor '" + Format(dto.vendorGuid.value) + "' not found." ==
              "Vendor" + " '" + Format(dto.vendorGuid.value) + "' not found.";
          }
          return Failure(NotFound("Vendor '" + Format(dto.vendorGuid.value) + "' not found."));
        }
        vendorId := repository.vendorIds[dto.vendorGuid.value];
      }
      assert vendorFault.None?;
      var maintenanceStatusId := stored.maintenanceStatusId;
      if dto.maintenanceStatusUuid.Some? {
        var fault := EnsureNonEmptyGuid(dto.maintenanceStatusUuid.value, "MaintenanceStatusUuid");
        if fault.Some? {
          assert statusFault == fault;
          return Failure(fault.value);
        }
        if dto.maintenanceStatusUuid.value !in repository.maintenanceStatusIds {
          assert statusFault == Some(NotFound("Maintenance status '" + Format(dto.maintenanceStatusUuid.value) +
                                              "' not found.")) by {
            assert "Maintenance status '" + Format(dto.maintenanceStatusUuid.value) + "' not found." ==
              "Maintenance status" + " '" + Format(dto.maintenanceStatusUuid.value) + "' not found.";
          }
          return Failure(NotFound("Maintenance status '" + Format(dto.maintenanceStatusUuid.value) + "' not found."));
        }
        maintenanceStatusId := repository.maintenanceStatusIds[dto.maintenanceStatusUuid.value];
      }
      assert statusFault.None?;
      var purchasePrice := stored.purchasePrice;
      if dto.purchasePrice.Some? {
        purchasePrice := dto.purchasePrice.value;
      }
      var purchaseDate := stored.purchaseDate;
      if dto.purchaseDate.Some? {
        purchaseDate := dto.purchaseDate.value;
      }
      r := Success(stored.(serialNumber := serialNumber, name := name, description := description,
                           photoUrl := photoUrl, vendorId := vendorId, maintenanceStatusId := maintenanceStatusId,
                           purchasePrice := purchasePrice, purchaseDate := purchaseDate, updatedAt := now));
    }

    /** `UpdateDevice`: the device the payload describes, saved unless the
        device, the vendor or the maintenance status is missing or the
        serial number is taken. */
    method UpdateDevice(deviceGuid: Guid, dto: UpdateDeviceDto, now: int) returns (r: Result<Device, Fault>)
      requires repository.Valid()
      modifies repository
      ensures repository.Valid()
      ensures deviceGuid !in old(repository.devices) ==>
        r == Failure(NotFound("Device not found.")) && unchanged(repository)
      ensures deviceGuid in old(repository.devices) ==> (
        var u := DeviceUpdate(old(repository.devices)[deviceGuid], dto,
                              repository.vendorIds, repository.maintenanceStatusIds, now);
        (u.Failure? ==> r == u && unchanged(repository)) &&
        (u.Success? && SerialTaken(old(repository.devices), deviceGuid, u.value.serialNumber) ==>
          r == Failure(UniqueConstraint) && unchanged(repository)) &&
        (u.Success? && !SerialTaken(old(repository.devices), deviceGuid, u.value.serialNumber) ==>
          r == u && repository.devices == old(repository.devices)[deviceGuid := u.value] &&
          repository.categories == old(repository.categories) &&
          repository.vendorIds == old(repository.vendorIds) &&
          repository.maintenanceStatusIds == old(repository.maintenanceStatusIds) &&
          repository.nextCategoryId == old(repository.nextCategoryId)))
    {
      if deviceGuid !in repository.devices {
        return Failure(NotFound("Device not found."));
      }
      r := ApplyUpdate(repository.devices[deviceGuid], dto, now);
      if r.Failure? {
        return;
      }
      if SerialTaken(repository.devices, deviceGuid, r.value.serialNumber) {
        return Failure(UniqueConstraint);
      }
      ReplaceDevice(repository.devices, repository.categories, deviceGuid, r.value);
      repository.devices := repository.devices[deviceGuid := r.value];
    }

    /** `UpsertDeviceParameter`: the trimmed key gets the trimmed value,
        and the stored parameter is returned. */
    method UpsertDeviceParameter(deviceGuid: Guid, key: string, value: string, now: int)
      returns (r: Result<Parameter, Fault>)
      requires repository.Valid()
      modifies repository
      ensures repository.Valid()
      ensures deviceGuid !in old(repository.devices) ==>
        r == Failure(NotFound("Device not found.")) && unchanged(repository)
      ensures deviceGuid in old(repository.devices) ==> (
        var d := old(repository.devices)[deviceGuid];
        var ps := Upsert(d.parameters, DotNetTrim(key), DotNetTrim(value), now);
        repository.devices == old(repository.devices)[deviceGuid := d.(parameters := ps, updatedAt := now)] &&
        r.Success? && r.value.key == DotNetTrim(key) && r.value.value == DotNetTrim(value) &&
        r.value in ps &&
        repository.categories == old(repository.categories) &&
        repository.nextCategoryId == old(repository.nextCategoryId))
    {
      if deviceGuid !in repository.devices {
        return Failure(NotFound("Device not found."));
      }
      var device := repository.devices[deviceGuid];
      var k := DotNetTrim(key);
      var v := DotNetTrim(value);
      UpsertSetsKey(device.parameters, k, v, now);
      var ps := Upsert(device.parameters, k, v, now);
      var i := FindKey(ps, k).value;
      ReplaceDevice(repository.devices, repository.categories, deviceGuid, device.(parameters := ps, updatedAt := now));
      repository.devices := repository.devices[deviceGuid := device.(parameters := ps, updatedAt := now)];
      r := Success(ps[i]);
    }

    /** `RemoveDeviceParameter`: a blank key is refused before the device
        is looked up; the key must match a parameter exactly. */
    method RemoveDeviceParameter(deviceGuid: Guid, key: string, now: int) returns (fault: Option<Fault>)
      requires repository.Valid()
      modifies repository
      ensures repository.Valid()
      ensures IsWhiteSpaceOnly(key) ==>
        fault == Some(Validation("Validation failed.", map["parameterKey" := ["Parameter key is required."]])) &&
        unchanged(repository)
      ensures !IsWhiteSpaceOnly(key) && deviceGuid !in old(repository.devices) ==>
        fault == Some(NotFound("Device not found.")) && unchanged(repository)
      ensures (!IsWhiteSpaceOnly(key) && deviceGuid in old(repository.devices) &&
               FindKey(old(repository.devices)[deviceGuid].parameters, key).None?) ==>
        fault == Some(NotFound("Parameter '" + key + "' not found on device.")) && unchanged(repository)
      ensures (!IsWhiteSpaceOnly(key) && deviceGuid in old(repository.devices) &&
               FindKey(old(repository.devices)[deviceGuid].parameters, key).Some?) ==> (
        var d := old(repository.devices)[deviceGuid];
        fault.None? &&
        repository.devices == old(repository.devices)[deviceGuid :=
          d.(parameters := RemoveAt(d.parameters, FindKey(d.parameters, key).value), updatedAt := now)] &&
        FindKey(repository.devices[deviceGuid].parameters, key).None? &&
        repository.categories == old(repository.categories) &&
        repository.nextCategoryId == old(repository.nextCategoryId))
    {
      if IsWhiteSpaceOnly(key) {
        return Some(Validation("Validation failed.", map["parameterKey" := ["Parameter key is required."]]));
      }
      if deviceGuid !in repository.devices {
        return Some(NotFound("Device not found."));
      }
      var device := repository.devices[deviceGuid];
      var found := FindKey(device.parameters, key);
      if found.None? {
        return Some(NotFound("Parameter '" + key + "' not found on device."));
      }
      RemoveDropsKey(device.parameters, key);
      var ps := RemoveAt(device.parameters, found.value);
      ReplaceDevice(repository.devices, repository.categories, deviceGuid, device.(parameters := ps, updatedAt := now));
      repository.devices := repository.devices[deviceGuid := device.(parameters := ps, updatedAt := now)];
      fault := None;
    }

    /** `UpdateStock`: the device's stock after the patch, created with
        `freshUuid` when the device had none. */
    method UpdateStock(deviceGuid: Guid, dto: UpdateStockDto, now: int, freshUuid: Guid)
      returns (r: Result<Stock, Fault>)
      requires repository.Valid()
      modifies repository
      ensures repository.Valid()
      ensures deviceGuid !in old(repository.devices) ==>
        r == Failure(NotFound("Device not found.")) && unchanged(repository)
      ensures deviceGuid in old(repository.devices) ==> (
        var d := old(repository.devices)[deviceGuid];
        var s := PatchStock(d.stock, dto, now, freshUuid);
        r == Success(s) &&
        repository.devices == old(repository.devices)[deviceGuid := d.(stock := Some(s), updatedAt := now)] &&
        repository.categories == old(repository.categories) &&
        repository.nextCategoryId == old(repository.nextCategoryId))
    {
      if deviceGuid !in repository.devices {
        return Failure(NotFound("Device not found."));
      }
      var device := repository.devices[deviceGuid];
      var stock: Stock;
      if device.stock.None? {
        stock := Stock(freshUuid, dto.stockUnitType.GetOr(UNIT), dto.stockCount.GetOr(0.0), now, now);
      } else {
        stock := device.stock.value;
        if dto.stockCount.Some? {
          stock := stock.(count := dto.stockCount.value);
        }
        if dto.stockUnitType.Some? {
          stock := stock.(unit := dto.stockUnitType.value);
        }
        stock := stock.(updatedAt := now);
      }
      ReplaceDevice(repository.devices, repository.categories, deviceGuid, device.(stock := Some(stock), updatedAt := now));
      repository.devices := repository.devices[deviceGuid := device.(stock := Some(stock), updatedAt := now)];
      r := Success(stock);
    }
  }

  /** `CategoryService`: creating, renaming and deleting categories. */
  class CategoryService {
    const repository: InventoryRepository

    constructor (repository: InventoryRepository)
      ensures this.repository == repository
    {
      this.repository := repository;
    }

    /** `CreateCategory`: the category is added under a new GUID and the
        next id; a name or GUID already in use is a conflict and nothing is
        saved. */
    method CreateCategory(name: string, description: Option<string>, guid: Guid, now: int)
      returns (r: Result<Category, Fault>)
      requires repository.Valid()
      modifies repository
      ensures repository.Valid()
      ensures guid in old(repository.categories) || NameTaken(old(repository.categories), guid, name) ==>
        r == Failure(UniqueConstraint) && unchanged(repository)
      ensures guid !in old(repository.categories) && !NameTaken(old(repository.categories), guid, name) ==> (
        r == Success(Category(old(repository.nextCategoryId), guid, name, description, now, now)) &&
        repository.categories == old(repository.categories)[guid := r.value] &&
        repository.nextCategoryId == old(repository.nextCategoryId) + 1 &&
        repository.devices == old(repository.devices))
    {
      if guid in repository.categories || NameTaken(repository.categories, guid, name) {
        return Failure(UniqueConstraint);
      }
      var category := Category(repository.nextCategoryId, guid, name, description, now, now);
      AddCategory(repository.devices, repository.categories, repository.nextCategoryId, category);
      repository.categories := repository.categories[guid := category];
      repository.nextCategoryId := repository.nextCategoryId + 1;
      r := Success(category);
    }

    /** `UpdateCategory`: the name is replaced when given, the description
        patched; a name another category has is a conflict and nothing is
        saved. */
    method UpdateCategory(categoryGuid: Guid, dto: UpdateCategoryDto, now: int) returns (r: Result<Category, Fault>)
      requires repository.Valid()
      modifies repository
      ensures repository.Valid()
      ensures categoryGuid !in old(repository.categories) ==>
        r == Failure(NotFound("Category not found.")) && unchanged(repository)
      ensures categoryGuid in old(repository.categories) ==> (
        var c := old(repository.categories)[categoryGuid];
        var u := c.(name := dto.name.GetOr(c.name), description := PatchText(c.description, dto.description),
                    updatedAt := now);
        (NameTaken(old(repository.categories), categoryGuid, u.name) ==>
          r == Failure(UniqueConstraint) && unchanged(repository)) &&
        (!NameTaken(old(repository.categories), categoryGuid, u.name) ==>
          r == Success(u) && repository.categories == old(repository.categories)[categoryGuid := u] &&
          repository.devices == old(repository.devices) &&
          repository.nextCategoryId == old(repository.nextCategoryId)))
    {
      if categoryGuid !in repository.categories {
        return Failure(NotFound("Category not found."));
      }
      var stored := repository.categories[categoryGuid];
      var name := stored.name;
      if dto.name.Some? {
        name := dto.name.value;
      }
      var description := stored.description;
      if dto.description.Some? {
        description := if IsWhiteSpaceOnly(dto.description.value) then None else dto.description;
      }
      assert description == PatchText(stored.description, dto.description);
      var category := stored.(name := name, description := description, updatedAt := now);
      if NameTaken(repository.categories, categoryGuid, category.name) {
        return Failure(UniqueConstraint);
      }
      ReplaceCategory(repository.devices, repository.categories, repository.nextCategoryId, categoryGuid, category);
      repository.categories := repository.categories[categoryGuid := category];
      r := Success(category);
    }

    /** `DeleteCategory`: the category goes, and the cascade on
        `DeviceCategory` removes every device's link to it. */
    method DeleteCategory(categoryGuid: Guid) returns (fault: Option<Fault>)
      requires repository.Valid()
      modifies repository
      ensures repository.Valid()
      ensures categoryGuid !in old(repository.categories) ==>
        fault == Some(NotFound("Category not found.")) && unchanged(repository)
      ensures categoryGuid in old(repository.categories) ==> (
        var id := old(repository.categories)[categoryGuid].id;
        fault.None? &&
        repository.categories == old(repository.categories) - {categoryGuid} &&
        repository.devices.Keys == old(repository.devices).Keys &&
        repository.devices == Cascade(old(repository.devices), id) &&
        id !in CategoryIds(repository.categories))
    {
      if categoryGuid !in repository.categories {
        return Some(NotFound("Category not found."));
      }
      var id := repository.categories[categoryGuid].id;
      CascadeKeepsLinks(repository.devices, repository.categories, repository.nextCategoryId, categoryGuid);
      repository.devices := Cascade(repository.devices, id);
      repository.categories := repository.categories - {categoryGuid};
      fault := None;
    }
  }
}
