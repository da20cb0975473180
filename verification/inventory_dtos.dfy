/** The C# inventory request payloads: the partial-update payloads for
    devices, stock and categories, each of which refuses a payload with
    nothing in it, the attributes declared on their properties, and the
    create-category check. */
module InventoryDtos {
  import opened Wrappers
  import opened Text
  import opened DotNetGuid
  import opened DataAnnotations
  import AuthValidation

  /** `StockUnitType`. */
  datatype StockUnitType = UNIT | KG | LITER

  /** `UpdateDeviceDto`: every field may be null, meaning "leave as is".
      Prices are decimals and dates day numbers. */
  datatype UpdateDeviceDto = UpdateDeviceDto(
    serialNumber: Option<string>,
    name: Option<string>,
    description: Option<string>,
    photoUrl: Option<string>,
    vendorGuid: Option<Guid>,
    maintenanceStatusUuid: Option<Guid>,
    purchasePrice: Option<real>,
    purchaseDate: Option<int>)

  predicate NothingToUpdate(dto: UpdateDeviceDto) {
    dto.serialNumber.None? && dto.name.None? && dto.description.None? && dto.photoUrl.None? &&
    dto.vendorGuid.None? && dto.maintenanceStatusUuid.None? &&
    dto.purchasePrice.None? && dto.purchaseDate.None?
  }

  const DeviceMembers: seq<string> := ["SerialNumber", "Name", "Description", "PhotoUrl",
    "VendorGuid", "MaintenanceStatusUuid", "PurchasePrice", "PurchaseDate"]

  /** `UpdateDeviceDto.Validate`: one result naming all eight members when
      every field is null, nothing otherwise.  Only null counts as missing:
      an empty or white-space string is a value. */
  function ValidateUpdateDevice(dto: UpdateDeviceDto): (r: seq<ValidationResult>)
    ensures |r| <= 1
    ensures |r| == 1 <==> NothingToUpdate(dto)
    ensures |r| == 1 ==> r[0].memberNames == DeviceMembers && |r[0].memberNames| == 8
  {
    if dto.serialNumber.None? && dto.name.None? && dto.description.None? && dto.photoUrl.None? &&
       dto.vendorGuid.None? && dto.maintenanceStatusUuid.None? &&
       dto.purchasePrice.None? && dto.purchaseDate.None?
    then [ValidationResult("At least one updatable field must be provided.", DeviceMembers)]
    else []
  }

  /** The attributes declared on `UpdateDeviceDto`'s properties.  The
      `[Url]` check on the photo URL is not part of this model. */
  predicate UpdateDeviceDeclared(dto: UpdateDeviceDto) {
    StringLength(dto.serialNumber, 1, 256) && NonBlankLine(dto.serialNumber) &&
    StringLength(dto.name, 0, 512) &&
    StringLength(dto.description, 0, 4000) &&
    StringLength(dto.photoUrl, 0, 2000) &&
    NonNegativeDecimal(dto.purchasePrice)
  }

  /** An empty serial number is a value to `Validate`, which lets the
      payload through; only the declared length refuses it. */
  lemma EmptySerialNumberIsAnUpdate(dto: UpdateDeviceDto)
    requires dto == UpdateDeviceDto(Some(""), None, None, None, None, None, None, None)
    ensures ValidateUpdateDevice(dto) == []
    ensures !UpdateDeviceDeclared(dto)
  {
  }

  /** `UpdateStockDto`. */
  datatype UpdateStockDto = UpdateStockDto(stockUnitType: Option<StockUnitType>, stockCount: Option<real>)

  /** `UpdateStockDto.Validate`: one result naming both members when both
      are null, nothing otherwise. */
  function ValidateUpdateStock(dto: UpdateStockDto): (r: seq<ValidationResult>)
    ensures |r| <= 1
    ensures |r| == 1 <==> dto.stockUnitType.None? && dto.stockCount.None?
    ensures |r| == 1 ==> r[0].memberNames == ["StockUnitType", "StockCount"]
  {
    if dto.stockUnitType.None? && dto.stockCount.None? then
      [ValidationResult("At least one of StockUnitType or StockCount must be provided.",
        ["StockUnitType", "StockCount"])]
    else []
  }

  /** The declared range of `StockCount`: a negative count is refused
      before the service sees it, and so is one above `decimal.MaxValue`. */
  predicate UpdateStockDeclared(dto: UpdateStockDto) {
    NonNegativeDecimal(dto.stockCount)
  }

  /** `UpdateCategoryDto`. */
  datatype UpdateCategoryDto = UpdateCategoryDto(name: Option<string>, description: Option<string>)

  /** `UpdateCategoryDto.Validate`: one result naming both members when both
      are null; an empty or white-space value counts as provided. */
  function ValidateUpdateCategory(dto: UpdateCategoryDto): (r: seq<ValidationResult>)
    ensures |r| <= 1
    ensures |r| == 1 <==> dto.name.None? && dto.description.None?
    ensures |r| == 1 ==> r[0].memberNames == ["Name", "Description"]
  {
    if dto.name.None? && dto.description.None? then
      [ValidationResult("At least one of Name or Description must be provided.", ["Name", "Description"])]
    else []
  }

  /** The attributes declared on `UpdateCategoryDto`'s properties. */
  predicate UpdateCategoryDeclared(dto: UpdateCategoryDto) {
    StringLength(dto.name, 1, 256) && NonBlankLine(dto.name) && StringLength(dto.description, 0, 2000)
  }

  /** `CategoryValidator.ValidateCreateCategoryDto`: a name of 1 to 100
      chars.  White space counts; a null name makes the check throw
      `NullReferenceException`. */
  function ValidateCreateCategory(name: Option<string>): (r: Result<bool, string>)
    ensures r.Failure? <==> name.None?
    ensures r.Success? ==> (r.value <==> 1 <= |name.value| <= 100)
  {
    if name.None? then Failure("NullReferenceException")
    else Success(1 <= |name.value| && |name.value| <= 100)
  }

  /** The category payload only treats null as missing, the group payload
      also white space: whatever the group check accepts the category
      check accepts, and a white-space name tells them apart. */
  lemma CategoryCheckIsLaxerThanGroupCheck(name: Option<string>, description: Option<string>)
    ensures AuthValidation.ValidateUpdateGroup(name, description) == [] ==>
      ValidateUpdateCategory(UpdateCategoryDto(name, description)) == []
    ensures ValidateUpdateCategory(UpdateCategoryDto(Some(" "), None)) == []
    ensures |AuthValidation.ValidateUpdateGroup(Some(" "), None)| == 1
  {
    assert DotNetWhiteSpace(" "[0]);
  }
}
