/** models/models.py: the validator bodies of the listing record
    (`InvestInfo`), the ceiling-height validator of the scraped record
    (`FlatInfo`), the order in which pydantic runs them, and the
    field-by-field fusion of both records into a `Tender`. */
module Models {
  import opened Common
  import opened Strings
  import opened Utils

  /** Timestamps are whole seconds; `timedelta(hours=3)` is this many. */
  const THREE_HOURS: int := 3 * 60 * 60

  /** Square metres per hectare. */
  const SQUARE_METERS_PER_HECTARE: real := 10000.0

  /** One element of `attached_pics`. */
  datatype Image = Image(url: Option<string>)

  /** What arrives for `room_floors` before the pre-validator runs: None (or
      no key), a list of integers, or any other single value. */
  datatype RawFloor = FloorNull | FloorList(items: seq<int>) | FloorScalar

  /** A tender record as it comes from the search API, each field already
      in its declared type; None stands for a missing key (or a null). */
  datatype RawListing = RawListing(
    id: Option<int>,
    url: Option<string>,
    objectTypeName: Option<string>,
    objectArea: Option<real>,
    isIoAreaInHectars: Option<bool>,
    address: Option<string>,
    startPrice: Option<int>,
    pricePerSquare: Option<int>,
    floors: Option<int>,
    roomFloors: RawFloor,
    roomsCount: Option<int>,
    requestEndDate: Option<int>,
    tenderDate: Option<int>,
    attachedPics: Option<seq<Image>>,
    imageUrl: Option<string>,
    deposit: Option<int>,
    cleanAddress: Option<string>)

  /** A validated `InvestInfo`. */
  datatype InvestInfo = InvestInfo(
    id: int,
    url: string,
    objectTypeName: Option<string>,
    objectArea: Option<real>,
    isIoAreaInHectars: Option<bool>,
    address: string,
    startPrice: Option<int>,
    pricePerSquare: Option<int>,
    floors: Option<int>,
    roomFloors: Option<int>,
    roomsCount: Option<int>,
    requestEndDate: Option<int>,
    tenderDate: Option<int>,
    attachedPics: Option<seq<Image>>,
    imageUrl: Option<string>,
    deposit: Option<int>,
    cleanAddress: string)

  /** A validated `FlatInfo`: the facts scraped from the address-lookup page. */
  datatype FlatInfo = FlatInfo(
    city: Option<string>,
    district: Option<string>,
    region: Option<string>,
    buildingYear: Option<int>,
    renovation: Option<string>,
    ceilingHeightStr: Option<string>,
    floorsType: Option<string>,
    wallsType: Option<string>,
    metroStation: Option<string>,
    metroDistance: Option<int>,
    metroColor: Option<string>,
    ceilingHeight: Option<real>,
    flatinfoUrl: Option<string>)

  /** The output record. */
  datatype Tender = Tender(
    idx: int,
    realtyLink: string,
    imageLink: Option<string>,
    realtyType: Option<string>,
    squareMeters: Option<real>,
    fullAddress: string,
    address: string,
    price: Option<int>,
    pricePerSquareMeter: Option<int>,
    floorsNumber: Option<int>,
    floor: Option<int>,
    roomsNumber: Option<int>,
    deposit: Option<int>,
    acceptingEndDate: Option<int>,
    tradingDate: Option<int>,
    city: Option<string>,
    district: Option<string>,
    region: Option<string>,
    metroStation: Option<string>,
    metroDistance: Option<int>,
    buildingYear: Option<int>,
    renovation: Option<string>,
    ceilingHeight: Option<real>,
    floorsType: Option<string>,
    wallsType: Option<string>,
    metroColor: Option<string>,
    flatinfoUrl: Option<string>)

  // ---------------------------------------------------------------------
  // InvestInfo validators

  /** `add_three_hours`: a datetime moves three hours later, anything else
      becomes None. */
  function AddThreeHours(value: Option<int>): (r: Option<int>)
    ensures value.Some? <==> r.Some?
    ensures value.Some? ==> r.value - value.value == THREE_HOURS
  {
    if value.Some? then Some(value.value + THREE_HOURS) else None
  }

  /** `return_first_element` (a pre-validator, so it sees the raw value). */
  function ReturnFirstElement(value: RawFloor): (r: Option<int>)
    ensures value.FloorNull? <==> r.None?
    ensures value.FloorList? && |value.items| > 0 ==> r == Some(value.items[0])
    ensures value.FloorScalar? || value == FloorList([]) ==> r == Some(1)
  {
    match value
    case FloorNull => None
    case FloorList(items) => if |items| > 0 then Some(items[0]) else Some(1)
    case FloorScalar => Some(1)
  }

  /** Python truthiness of a float. */
  predicate Truthy(v: Option<real>) {
    v.Some? && v.value != 0.0
  }

  /** `convert_to_square_meters(v, values)` given `values.get('is_io_area_in_hectars')`. */
  function ConvertToSquareMeters(v: Option<real>, inHectares: Option<bool>): (r: Option<real>)
    ensures inHectares == Some(true) && Truthy(v) ==> r == Some(v.value * SQUARE_METERS_PER_HECTARE)
    ensures !(inHectares == Some(true) && Truthy(v)) ==> r == v
    ensures r.Some? <==> v.Some?
  {
    if inHectares == Some(true) && Truthy(v) then Some(v.value * SQUARE_METERS_PER_HECTARE) else v
  }

  /** `set_clean_address(v, values)`: the supplied value is ignored and the
      cleaned address is always derived. */
  function SetCleanAddress(v: Option<string>, address: string): (r: string)
    ensures r == CleanAddress(address)
    ensures forall seg | seg in Split(r, ',') :: !IsNoise(seg)
    ensures CleanAddress(r) == r
  {
    CleanAddressHasNoNoise(address);
    CleanAddressIdempotent(address);
    CleanAddress(address)
  }

  /** `get_first_url(v, values)`: the url of the first attached picture when
      the list is non-empty, None otherwise; the supplied value is ignored. */
  function GetFirstUrl(v: Option<string>, pics: Option<seq<Image>>): (r: Option<string>)
    ensures pics.Some? && |pics.value| > 0 ==> r == pics.value[0].url
    ensures pics.None? || pics.value == [] ==> r.None?
  {
    if pics.Some? && |pics.value| > 0 then pics.value[0].url else None
  }

  /** What `values.get('is_io_area_in_hectars')` yields while `object_area`
      is validated: pydantic fills `values` in declaration order and the
      flag is declared after the area, so it is never there yet. */
  const HECTARE_FLAG_SEEN_BY_AREA: Option<bool> := None

  /** `InvestInfo.parse_obj`. A missing address makes `set_clean_address`
      raise KeyError, which pydantic does not catch; a missing id or url is
      a validation error. */
  function ParseInvestInfo(raw: RawListing): (r: Result<InvestInfo>)
    ensures raw.address.None? ==> r == Err(KeyError("address"))
    ensures raw.address.Some? && (raw.id.None? || raw.url.None?) ==> r == Err(ValidationError)
    ensures r.Ok? <==> raw.address.Some? && raw.id.Some? && raw.url.Some?
  {
    if raw.address.None? then Err(KeyError("address"))
    else if raw.id.None? || raw.url.None? then Err(ValidationError)
    else
      var address := raw.address.value;
      Ok(InvestInfo(
        id := raw.id.value,
        url := raw.url.value,
        objectTypeName := raw.objectTypeName,
        objectArea := ConvertToSquareMeters(raw.objectArea, HECTARE_FLAG_SEEN_BY_AREA),
        isIoAreaInHectars := raw.isIoAreaInHectars,
        address := address,
        startPrice := raw.startPrice,
        pricePerSquare := raw.pricePerSquare,
        floors := raw.floors,
        roomFloors := ReturnFirstElement(raw.roomFloors),
        roomsCount := raw.roomsCount,
        requestEndDate := AddThreeHours(raw.requestEndDate),
        tenderDate := AddThreeHours(raw.tenderDate),
        attachedPics := raw.attachedPics,
        imageUrl := GetFirstUrl(raw.imageUrl, raw.attachedPics),
        deposit := raw.deposit,
        cleanAddress := SetCleanAddress(raw.cleanAddress, address)))
  }

  /** The hectare multiplier never fires on a parsed listing, whatever the
      flag says: the area is kept as supplied. */
  lemma HectareFlagIgnored(raw: RawListing)
    requires ParseInvestInfo(raw).Ok?
    ensures ParseInvestInfo(raw).value.objectArea == raw.objectArea
  {
  }

  /** A parsed listing carries the cleaned form of its own address, free
      of noise segments, and the supplied `clean_address` plays no part. */
  lemma ParsedAddressIsClean(raw: RawListing, supplied: Option<string>)
    requires ParseInvestInfo(raw).Ok?
    ensures ParseInvestInfo(raw).value.cleanAddress == CleanAddress(raw.address.value)
    ensures forall seg | seg in Split(ParseInvestInfo(raw).value.cleanAddress, ',') :: !IsNoise(seg)
    ensures ParseInvestInfo(raw.(cleanAddress := supplied)) == ParseInvestInfo(raw)
  {
  }

  /** Parsing copies the plain fields and applies the validators to the others. */
  lemma ParsedFields(raw: RawListing)
    requires ParseInvestInfo(raw).Ok?
    ensures var info := ParseInvestInfo(raw).value;
      && Some(info.id) == raw.id && Some(info.url) == raw.url
      && Some(info.address) == raw.address
      && info.roomFloors == ReturnFirstElement(raw.roomFloors)
      && info.requestEndDate == AddThreeHours(raw.requestEndDate)
      && info.tenderDate == AddThreeHours(raw.tenderDate)
      && info.imageUrl == GetFirstUrl(raw.imageUrl, raw.attachedPics)
  {
  }

  // ---------------------------------------------------------------------
  // FlatInfo

  /** `convert_value_to_meters` before pydantic wraps its errors: None stays
      None; otherwise `int(height.split()[0])`, an IndexError when the text
      has no word and a ValueError when the first word is not an integer. */
  function ConvertValueToMeters(height: Option<string>): (r: Result<Option<int>>)
    ensures height.None? <==> r == Ok(None)
    ensures height.Some? && Words(height.value) == [] ==> r == Err(IndexError)
    ensures height.Some? && Words(height.value) != [] ==>
      (r == Err(ValueError) <==> PythonInt(Words(height.value)[0]).None?)
    ensures r.Ok? && r.value.Some? ==> PythonInt(Words(height.value)[0]) == r.value
  {
    if height.None? then Ok(None)
    else
      var words := Words(height.value);
      if words == [] then Err(IndexError)
      else
        match PythonInt(words[0])
        case None => Err(ValueError)
        case Some(n) => Ok(Some(n))
  }

  /** "2 м" and "2 м." read as 2 (only the first word counts), */
  lemma CeilingHeightWholeMeters(n: nat, rest: string)
    requires |rest| == 0 || IsSpace(rest[0])
    ensures ConvertValueToMeters(Some(DecimalString(n) + rest)) == Ok(Some(n))
  {
    var d := DecimalString(n);
    DecimalRoundTrip(n);
    NoSpaceInDigits(d);
    WordsCons(d, rest);
    PythonIntDecimal(n);
  }

  /** while a fractional height such as "2.7" is rejected. */
  lemma CeilingHeightFractionRejected(x: string, y: string, rest: string)
    requires IsDigits(x) && IsDigits(y)
    requires |rest| == 0 || IsSpace(rest[0])
    ensures ConvertValueToMeters(Some(x + "." + y + rest)) == Err(ValueError)
  {
    var w := x + "." + y;
    assert w[|x|] == '.';
    NoSpaceInDigits(x);
    NoSpaceInDigits(y);
    assert NoSpace(w) by {
      assert forall k | 0 <= k < |w| :: w[k] == (if k < |x| then x[k] else if k == |x| then '.' else y[k - |x| - 1]);
    }
    assert x + "." + y + rest == w + rest;
    WordsCons(w, rest);
    DottedNotInt(x, y);
  }

  lemma DottedNotInt(x: string, y: string)
    requires IsDigits(x) && IsDigits(y)
    ensures PythonInt(x + "." + y).None?
  {
    var w := x + "." + y;
    assert w[0] == x[0] && w[|w| - 1] == y[|y| - 1];
    assert IsDigit(w[0]);
    StripStripped(w);
    assert w[|x|] == '.';
    NotDigitsAt(w, |x|);
  }

  lemma NotDigitsAt(s: string, i: nat)
    requires i < |s| && !IsDigit(s[i])
    ensures !IsDigits(s)
  {
  }

  /** Python's `int(x)` on a float: truncation toward zero. */
  function TruncateFloat(x: real): (r: int)
    ensures 0.0 <= x ==> r as real <= x < r as real + 1.0
    ensures x < 0.0 ==> r as real - 1.0 < x <= r as real
  {
    if x >= 0.0 then x.Floor else 0 - (0.0 - x).Floor
  }

  /** Reading a text field of the scraped dictionary. */
  function TextField(page: map<string, Field>, key: string): Result<Option<string>> {
    if key !in page then Ok(None)
    else match page[key]
      case Text(s) => Ok(Some(s))
      case Null => Ok(None)
      case Number(_) => Err(ValidationError)
  }

  /** Reading an integer field: text through `int()`, a float truncated. */
  function IntField(page: map<string, Field>, key: string): Result<Option<int>> {
    if key !in page then Ok(None)
    else match page[key]
      case Text(s) => (match PythonInt(s) case Some(n) => Ok(Some(n)) case None => Err(ValidationError))
      case Number(x) => Ok(Some(TruncateFloat(x)))
      case Null => Ok(None)
  }

  /** `FlatInfo.parse_obj(page)`. Field errors are collected, but an
      IndexError from the ceiling-height validator escapes pydantic at once;
      its ValueError becomes a validation error like the others. */
  function FlatInfoFromPage(page: map<string, Field>): (r: Result<FlatInfo>)
    ensures r == Err(IndexError) <==>
      TextField(page, "ceiling_height_str").Ok? &&
      ConvertValueToMeters(TextField(page, "ceiling_height_str").value) == Err(IndexError)
    ensures r.Ok? ==> r.value.flatinfoUrl.None?
    ensures r.Ok? ==> TextField(page, "ceiling_height_str") == Ok(r.value.ceilingHeightStr)
    ensures r.Ok? && r.value.ceilingHeight.Some? ==>
      ConvertValueToMeters(r.value.ceilingHeightStr) == Ok(Some(r.value.ceilingHeight.value.Floor))
  {
    var city := TextField(page, "city");
    var district := TextField(page, "district");
    var region := TextField(page, "region");
    var buildingYear := IntField(page, "building_year");
    var renovation := TextField(page, "renovation");
    var heightStr := TextField(page, "ceiling_height_str");
    var floorsType := TextField(page, "floors_type");
    var wallsType := TextField(page, "walls_type");
    var station := TextField(page, "metro_station");
    var distance := IntField(page, "metro_distance");
    var color := TextField(page, "metro_color");
    var height := if heightStr.Ok? then ConvertValueToMeters(heightStr.value) else Ok(None);
    if height == Err(IndexError) then Err(IndexError)
    else if city.Err? || district.Err? || region.Err? || buildingYear.Err? || renovation.Err?
      || heightStr.Err? || floorsType.Err? || wallsType.Err? || station.Err? || distance.Err?
      || color.Err? || height.Err?
    then Err(ValidationError)
    else
      Ok(FlatInfo(
        city := city.value,
        district := district.value,
        region := region.value,
        buildingYear := buildingYear.value,
        renovation := renovation.value,
        ceilingHeightStr := heightStr.value,
        floorsType := floorsType.value,
        wallsType := wallsType.value,
        metroStation := station.value,
        metroDistance := distance.value,
        metroColor := color.value,
        ceilingHeight := if height.value.Some? then Some(height.value.value as real) else None,
        flatinfoUrl := None))
  }

  // ---------------------------------------------------------------------
  // TenderBuilder.build

  /** `TenderBuilder.build(flatinfo, invest)`: every field is copied, none
      is computed. */
  function Build(flat: FlatInfo, invest: InvestInfo): (t: Tender)
    ensures t.idx == invest.id && t.realtyLink == invest.url && t.imageLink == invest.imageUrl
    ensures t.realtyType == invest.objectTypeName && t.squareMeters == invest.objectArea
    ensures t.fullAddress == invest.address && t.address == invest.cleanAddress
    ensures t.price == invest.startPrice && t.pricePerSquareMeter == invest.pricePerSquare
    ensures t.floorsNumber == invest.floors && t.floor == invest.roomFloors
    ensures t.roomsNumber == invest.roomsCount && t.deposit == invest.deposit
    ensures t.acceptingEndDate == invest.requestEndDate && t.tradingDate == invest.tenderDate
    ensures t.city == flat.city && t.district == flat.district && t.region == flat.region
    ensures t.metroStation == flat.metroStation && t.metroDistance == flat.metroDistance
    ensures t.buildingYear == flat.buildingYear && t.renovation == flat.renovation
    ensures t.ceilingHeight == flat.ceilingHeight && t.floorsType == flat.floorsType
    ensures t.wallsType == flat.wallsType && t.metroColor == flat.metroColor
    ensures t.flatinfoUrl == flat.flatinfoUrl
  {
    Tender(
      idx := invest.id,
      realtyLink := invest.url,
      imageLink := invest.imageUrl,
      realtyType := invest.objectTypeName,
      squareMeters := invest.objectArea,
      fullAddress := invest.address,
      address := invest.cleanAddress,
      price := invest.startPrice,
      pricePerSquareMeter := invest.pricePerSquare,
      floorsNumber := invest.floors,
      floor := invest.roomFloors,
      roomsNumber := invest.roomsCount,
      deposit := invest.deposit,
      acceptingEndDate := invest.requestEndDate,
      tradingDate := invest.tenderDate,
      city := flat.city,
      district := flat.district,
      region := flat.region,
      metroStation := flat.metroStation,
      metroDistance := flat.metroDistance,
      buildingYear := flat.buildingYear,
      renovation := flat.renovation,
      ceilingHeight := flat.ceilingHeight,
      floorsType := flat.floorsType,
      wallsType := flat.wallsType,
      metroColor := flat.metroColor,
      flatinfoUrl := flat.flatinfoUrl)
  }

  /** A tender built from a parsed listing shows, as its short address, the
      cleaned form of its full address: no noise segment, and cleaning it
      again changes nothing. */
  lemma TenderAddressIsClean(flat: FlatInfo, raw: RawListing, deposit: Option<int>)
    requires ParseInvestInfo(raw).Ok?
    ensures var t := Build(flat, ParseInvestInfo(raw).value.(deposit := deposit));
      && t.address == CleanAddress(t.fullAddress)
      && (forall seg | seg in Split(t.address, ',') :: !IsNoise(seg))
      && CleanAddress(t.address) == t.address
      && t.deposit == deposit
  {
  }
}
