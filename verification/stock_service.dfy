/** LumenForge stock keeping (Java service): one stock record per device,
    with a decimal count that may have to be whole.  The JPA repositories
    are an in-memory table keyed by device UUID beside the set of known
    device UUIDs. */
module StockService {
  import opened Wrappers

  /** `java.math.BigDecimal`: the value `unscaled × 10^-scale`. */
  datatype BigDecimal = BigDecimal(unscaled: int, scale: int)

  const Zero: BigDecimal := BigDecimal(0, 0)

  function Pow10(n: nat): (r: nat)
    ensures r > 0
  {
    if n == 0 then 1 else 10 * Pow10(n - 1)
  }

  /** `compareTo(BigDecimal.ZERO) < 0`: the sign is the unscaled value's. */
  predicate IsNegative(d: BigDecimal) {
    d.unscaled < 0
  }

  /** The value is a whole number. */
  predicate IsIntegral(d: BigDecimal) {
    d.scale <= 0 || d.unscaled % Pow10(d.scale) == 0
  }

  /** `stripTrailingZeros`: the same value with the fewest digits; zero
      becomes `BigDecimal.ZERO`. */
  function StripTrailingZeros(d: BigDecimal): (r: BigDecimal)
    ensures r.unscaled == 0 ==> r == Zero
    ensures r.unscaled != 0 ==> r.unscaled % 10 != 0
    decreases if d.unscaled < 0 then -d.unscaled else d.unscaled
  {
    if d.unscaled == 0 then Zero
    else if d.unscaled % 10 == 0 then StripTrailingZeros(BigDecimal(d.unscaled / 10, d.scale - 1))
    else d
  }

  /** Dropping one trailing zero digit keeps a value whole or fractional. */
  lemma DropZeroKeepsIntegral(u: int, s: int)
    requires u % 10 == 0
    ensures IsIntegral(BigDecimal(u / 10, s - 1)) <==> IsIntegral(BigDecimal(u, s))
  {
    if s == 1 {
      assert Pow10(1) == 10;
    } else if s > 1 {
      var p := Pow10(s - 1);
      var q := u / 10;
      assert u == 10 * q;
      assert Pow10(s) == 10 * p;
      ScaledRemainder(q, p);
    }
  }

  /** `(10q) mod (10p)` is ten times `q mod p`. */
  lemma ScaledRemainder(q: int, p: int)
    requires p > 0
    ensures (10 * q) % (10 * p) == 10 * (q % p)
  {
    var k, r := q / p, q % p;
    assert q == p * k + r && 0 <= r < p;
    assert 10 * q == (10 * p) * k + 10 * r;
    DivUnique(10 * q, 10 * p, k, 10 * r);
  }

  /** The remainder is the only one in `[0, b)`. */
  lemma DivUnique(a: int, b: int, k: int, r: int)
    requires b > 0 && a == b * k + r && 0 <= r < b
    ensures a % b == r
  {
    var k', r' := a / b, a % b;
    assert a == b * k' + r' && 0 <= r' < b;
    assert b * (k - k') == r' - r by {
      assert b * k - b * k' == b * (k - k');
    }
    NoSmallMultiple(b, k - k', r' - r);
  }

  /** The only multiple of `b` strictly between `-b` and `b` is zero. */
  lemma NoSmallMultiple(b: int, m: int, d: int)
    requires b > 0 && b * m == d && -b < d < b
    ensures m == 0
  {
    if m >= 1 {
      MulAtLeast(b, m);
    } else if m <= -1 {
      assert b * (-m) == -(b * m);
      MulAtLeast(b, -m);
    }
  }

  lemma {:induction false} MulAtLeast(b: int, m: int)
    requires b > 0 && m >= 1
    ensures b * m >= b
  {
    if m > 1 {
      MulAtLeast(b, m - 1);
      assert b * m == b * (m - 1) + b;
    }
  }

  /** Stripping the zeros leaves a positive scale exactly for a fractional
      value, so the check admits 1.0 and 2.00 but not 1.5. */
  lemma {:induction false} StripScalePositiveIff(d: BigDecimal)
    ensures StripTrailingZeros(d).scale > 0 <==> !IsIntegral(d)
    decreases if d.unscaled < 0 then -d.unscaled else d.unscaled
  {
    if d.unscaled == 0 {
      assert IsIntegral(d);
    } else if d.unscaled % 10 == 0 {
      StripScalePositiveIff(BigDecimal(d.unscaled / 10, d.scale - 1));
      DropZeroKeepsIntegral(d.unscaled, d.scale);
    } else if d.scale > 0 {
      assert Pow10(d.scale) == 10 * Pow10(d.scale - 1);
      ModTenOfMultiple(d.unscaled, Pow10(d.scale - 1));
    }
  }

  /** A multiple of a multiple of ten ends in the digit zero. */
  lemma ModTenOfMultiple(u: int, p: nat)
    requires p > 0
    ensures u % (10 * p) == 0 ==> u % 10 == 0
  {
    if u % (10 * p) == 0 {
      var k := u / (10 * p);
      assert u == (10 * p) * k;
      assert u == 10 * (p * k);
    }
  }

  datatype StockUnitType = StockUnitType(name: string)

  datatype Stock = Stock(stockUnitType: StockUnitType, stockCount: BigDecimal, isFractional: bool)

  /** An upsert request; the unit type and the count may be null. */
  datatype StockRequest = StockRequest(
    stockUnitType: Option<StockUnitType>, stockCount: Option<BigDecimal>, isFractional: bool)

  datatype StockResponse = StockResponse(
    deviceUuid: string, stockUnitType: StockUnitType, stockCount: BigDecimal, isFractional: bool)

  datatype Fault =
    | NullArgument(message: string)
    | IllegalArgument(message: string)
    | EntityNotFound(message: string)

  /** `validateCount`: no negative count, and no fractional one unless fractions are allowed. */
  function ValidateCount(count: BigDecimal, fractionalAllowed: bool): (r: Option<Fault>)
    ensures r.None? <==> !IsNegative(count) && (fractionalAllowed || IsIntegral(count))
    ensures IsNegative(count) ==> r == Some(IllegalArgument("stockCount must be >= 0"))
  {
    StripScalePositiveIff(count);
    if IsNegative(count) then Some(IllegalArgument("stockCount must be >= 0"))
    else if !fractionalAllowed && StripTrailingZeros(count).scale > 0 then
      Some(IllegalArgument("Fractional stockCount not allowed"))
    else None
  }

  function StockNotFound(deviceUuid: string): string {
    "Stock not found for deviceUuid=" + deviceUuid
  }

  function DeviceNotFound(deviceUuid: string): string {
    "Device not found: uuid=" + deviceUuid
  }

  /** Every row the service writes holds a count the row's own flag admits. */
  predicate CountsValid(stocks: map<string, Stock>) {
    forall u :: u in stocks ==> ValidateCount(stocks[u].stockCount, stocks[u].isFractional).None?
  }

  class StockServiceImpl {
    /** The stock rows, by device UUID. */
    var stocks: map<string, Stock>
    /** The UUIDs of the stored devices. */
    var devices: set<string>

    /** Only devices that exist have stock, and every stored count is one
        its row's fractional flag admits. */
    predicate Valid()
      reads this
    {
      stocks.Keys <= devices && CountsValid(stocks)
    }

    constructor (devices: set<string>)
      ensures stocks == map[] && this.devices == devices && Valid()
    {
      stocks := map[];
      this.devices := devices;
    }

    /** Sets the device's unit type, count and fractional flag, creating
        its stock row if there is none.  A null field, an invalid count or
        an unknown device fails and leaves the table as it was. */
    method UpsertByDeviceUuid(deviceUuid: string, request: StockRequest)
      returns (r: Result<StockResponse, Fault>)
      requires Valid()
      modifies this
      ensures Valid() && devices == old(devices)
      ensures request.stockUnitType.None? ==> r == Failure(NullArgument("stockUnitType must not be null"))
      ensures request.stockUnitType.Some? && request.stockCount.None? ==>
        r == Failure(NullArgument("stockCount must not be null"))
      ensures (request.stockUnitType.Some? && request.stockCount.Some? &&
               ValidateCount(request.stockCount.value, request.isFractional).Some?) ==>
        r == Failure(ValidateCount(request.stockCount.value, request.isFractional).value)
      ensures r.Success? <==> (request.stockUnitType.Some? && request.stockCount.Some? &&
        ValidateCount(request.stockCount.value, request.isFractional).None? &&
        (deviceUuid in old(stocks) || deviceUuid in devices))
      ensures r.Success? ==>
        var s := Stock(request.stockUnitType.value, request.stockCount.value, request.isFractional);
        stocks == old(stocks)[deviceUuid := s] &&
        r.value == StockResponse(deviceUuid, s.stockUnitType, s.stockCount, s.isFractional)
      ensures r.Failure? ==> stocks == old(stocks)
    {
      if request.stockUnitType.None? {
        return Failure(NullArgument("stockUnitType must not be null"));
      }
      if request.stockCount.None? {
        return Failure(NullArgument("stockCount must not be null"));
      }
      var invalid := ValidateCount(request.stockCount.value, request.isFractional);
      if invalid.Some? {
        return Failure(invalid.value);
      }
      if deviceUuid !in stocks && deviceUuid !in devices {
        return Failure(EntityNotFound(DeviceNotFound(deviceUuid)));
      }
      var stock := Stock(request.stockUnitType.value, request.stockCount.value, request.isFractional);
      WritesKeepCountsValid(stocks, deviceUuid, stock);
      stocks := stocks[deviceUuid := stock];
      return Success(StockResponse(deviceUuid, stock.stockUnitType, stock.stockCount, stock.isFractional));
    }

    /** Replaces only the count of an existing row, checked against the
        row's own fractional flag. */
    method PatchCountByDeviceUuid(deviceUuid: string, newCount: Option<BigDecimal>)
      returns (r: Result<StockResponse, Fault>)
      requires Valid()
      modifies this
      ensures Valid() && devices == old(devices)
      ensures newCount.None? ==> r == Failure(NullArgument("newCount must not be null"))
      ensures newCount.Some? && deviceUuid !in old(stocks) ==>
        r == Failure(EntityNotFound(StockNotFound(deviceUuid)))
      ensures r.Success? <==> (newCount.Some? && deviceUuid in old(stocks) &&
        ValidateCount(newCount.value, old(stocks)[deviceUuid].isFractional).None?)
      ensures r.Success? ==>
        var s := old(stocks)[deviceUuid].(stockCount := newCount.value);
        stocks == old(stocks)[deviceUuid := s] &&
        r.value == StockResponse(deviceUuid, s.stockUnitType, s.stockCount, s.isFractional)
      ensures r.Failure? ==> stocks == old(stocks)
    {
      if newCount.None? {
        return Failure(NullArgument("newCount must not be null"));
      }
      if deviceUuid !in stocks {
        return Failure(EntityNotFound(StockNotFound(deviceUuid)));
      }
      var stock := stocks[deviceUuid];
      var invalid := ValidateCount(newCount.value, stock.isFractional);
      if invalid.Some? {
        return Failure(invalid.value);
      }
      stock := stock.(stockCount := newCount.value);
      WritesKeepCountsValid(stocks, deviceUuid, stock);
      stocks := stocks[deviceUuid := stock];
      return Success(StockResponse(deviceUuid, stock.stockUnitType, stock.stockCount, stock.isFractional));
    }

    /** Removes the device's stock row; a device without one is not found. */
    method DeleteByDeviceUuid(deviceUuid: string) returns (r: Result<(), Fault>)
      requires Valid()
      modifies this
      ensures Valid() && devices == old(devices)
      ensures deviceUuid !in old(stocks) ==>
        r == Failure(EntityNotFound(StockNotFound(deviceUuid))) && stocks == old(stocks)
      ensures deviceUuid in old(stocks) ==> r == Success(()) && stocks == old(stocks) - {deviceUuid}
    {
      if deviceUuid !in stocks {
        return Failure(EntityNotFound(StockNotFound(deviceUuid)));
      }
      WritesKeepCountsValid(stocks, deviceUuid, stocks[deviceUuid]);
      stocks := stocks - {deviceUuid};
      return Success(());
    }
  }

  /** Upsert, patch and delete keep every stored count admissible: a
      successful write stores a count checked against the flag it is
      stored with, and a failed one stores nothing. */
  lemma WritesKeepCountsValid(stocks: map<string, Stock>, u: string, s: Stock)
    requires CountsValid(stocks)
    ensures ValidateCount(s.stockCount, s.isFractional).None? ==> CountsValid(stocks[u := s])
    ensures CountsValid(stocks - {u})
  {
  }

  /** A whole count passes whatever the flag says; a fractional one passes
      only when the flag allows fractions; no negative count passes. */
  lemma ValidateCountExamples()
    ensures ValidateCount(BigDecimal(10, 1), false).None?
    ensures ValidateCount(BigDecimal(15, 1), false) == Some(IllegalArgument("Fractional stockCount not allowed"))
    ensures ValidateCount(BigDecimal(15, 1), true).None?
    ensures ValidateCount(BigDecimal(-1, 0), true) == Some(IllegalArgument("stockCount must be >= 0"))
  {
    assert StripTrailingZeros(BigDecimal(10, 1)) == BigDecimal(1, 0);
    assert StripTrailingZeros(BigDecimal(15, 1)) == BigDecimal(15, 1);
  }
}
