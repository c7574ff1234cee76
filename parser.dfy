/** parser.py: the crawler. It reads every result page of the tender
    search, drops the listings of the Moscow region, reads each listing's
    deposit from its detail record, and enriches it with the facts scraped
    from the address-lookup site, caching those by address and by page URL.
    The four HTTP calls are an oracle (`Upstream`) that answers each request
    deterministically, with a value or a failure. */
module Parser {
  import opened Common
  import opened Strings
  import opened Utils
  import opened Models
  import opened HtmlParser
  import opened FilterModels

  /** `Parser.PAGE_SIZE`. */
  const PAGE_SIZE: int := 10

  /** Listings whose lower-cased address contains this are dropped. */
  const EXCLUDED_REGION: string := "московская обл"

  /** The `procedureInfo` label of the deposit entry. */
  const DEPOSIT_LABEL: string := "Размер задатка"

  // ---------------------------------------------------------------------
  // Upstream responses and the oracle

  /** One entity of a search page, with its `tenders` list when present. */
  datatype Entity = Entity(tenders: Option<seq<RawListing>>)

  /** A decoded search page: `totalCount` and `entities` when present. */
  datatype SearchPage = SearchPage(totalCount: Option<int>, entities: Option<seq<Entity>>)

  /** One `procedureInfo` entry; a field is None when missing or not a string. */
  datatype InfoEntry = InfoEntry(caption: Option<string>, value: Option<string>)

  /** A decoded tender detail record. */
  datatype TenderDetail = TenderDetail(procedureInfo: Option<seq<InfoEntry>>)

  /** A decoded address-lookup reply; `url` is None when missing or null. */
  datatype LookupReply = LookupReply(url: Option<string>)

  /** The four outbound calls: the search POST, the tender-detail GET, the
      address-lookup GET and the lookup-page GET (whose text is given here
      already as the abstracted page). Each answers once with a value or a
      failure; nothing is retried. The page GET takes a real URL: a missing
      one never reaches the network, since `requests.get(None)` raises. */
  datatype Upstream = Upstream(
    searchPage: SearchQuery -> Result<SearchPage>,
    tenderDetail: int -> Result<TenderDetail>,
    addressLookup: string -> Result<LookupReply>,
    detailPage: string -> Result<Page>)

  /** Prefixing a list onto a successful result. */
  function Prepend<T>(a: seq<T>, r: Result<seq<T>>): Result<seq<T>> {
    match r
    case Ok(b) => Ok(a + b)
    case Err(e) => Err(e)
  }

  lemma PrependNothing<T>(r: Result<seq<T>>)
    ensures Prepend([], r) == r
  {
    if r.Ok? {
      assert [] + r.value == r.value;
    }
  }

  // ---------------------------------------------------------------------
  // Page-count arithmetic

  /** Python's `ceil(n / d)` for a positive divisor. */
  function CeilDiv(n: int, d: int): (r: int)
    requires d > 0
    ensures d * (r - 1) < n <= d * r
  {
    0 - ((0 - n) / d)
  }

  /** `_get_end_page_number` once the total is known. */
  function EndPage(total: int): int {
    CeilDiv(total, PAGE_SIZE) + 1
  }

  /** The page numbers `lo`, ..., `hi - 1` in order. */
  function Pages(lo: int, hi: int): (r: seq<int>)
    ensures |r| == if hi <= lo then 0 else hi - lo
    ensures forall i | 0 <= i < |r| :: r[i] == lo + i
    decreases hi - lo
  {
    if hi <= lo then [] else Pages(lo, hi - 1) + [hi - 1]
  }

  /** With `n` results, pages 1 to ceil(n/10) are crawled: the last page
      starts below `n` and holds the `n`-th result; no page is crawled
      when `n` is not positive. */
  lemma CrawledPagesCoverTotal(n: int)
    ensures var k := |Pages(1, EndPage(n))|;
      && (n <= 0 ==> k == 0)
      && (n > 0 ==> k == CeilDiv(n, PAGE_SIZE) && PAGE_SIZE * (k - 1) < n <= PAGE_SIZE * k)
  {
    var c := CeilDiv(n, PAGE_SIZE);
    if n <= 0 {
      assert c <= 0;
    } else {
      assert c >= 1;
    }
  }

  // ---------------------------------------------------------------------
  // Region filtering

  predicate Excluded(address: string) {
    Contains(Lower(address), EXCLUDED_REGION)
  }

  /** `clear_tenders` on a `tenders` list: the listings outside the Moscow
      region in order; the first listing without an address raises. */
  function RegionFiltered(ts: seq<RawListing>): Result<seq<RawListing>> {
    if ts == [] then Ok([])
    else if ts[0].address.None? then Err(AttributeError)
    else Prepend(if Excluded(ts[0].address.value) then [] else [ts[0]], RegionFiltered(ts[1..]))
  }

  function ClearTendersSpec(entity: Entity): Result<seq<RawListing>> {
    if entity.tenders.None? then Ok([]) else RegionFiltered(entity.tenders.value)
  }

  /** The filter fails exactly when some listing lacks an address. */
  lemma {:induction false} RegionFilteredFails(ts: seq<RawListing>)
    ensures RegionFiltered(ts).Err? <==> exists i | 0 <= i < |ts| :: ts[i].address.None?
    ensures RegionFiltered(ts).Err? ==> RegionFiltered(ts).error == AttributeError
  {
    if ts != [] {
      RegionFilteredFails(ts[1..]);
      if ts[0].address.Some? && (exists i | 0 <= i < |ts| :: ts[i].address.None?) {
        var i :| 0 <= i < |ts| && ts[i].address.None?;
        assert ts[1..][i - 1] == ts[i];
      }
      if exists i | 0 <= i < |ts[1..]| :: ts[1..][i].address.None? {
        var i :| 0 <= i < |ts[1..]| && ts[1..][i].address.None?;
        assert ts[i + 1] == ts[1..][i];
      }
    }
  }

  /** Kept listings are exactly the input listings outside the region, in order. */
  lemma {:induction false} RegionFilteredKeeps(ts: seq<RawListing>)
    requires RegionFiltered(ts).Ok?
    ensures var r := RegionFiltered(ts).value;
      && IsSubsequence(r, ts)
      && (forall x | x in r :: x.address.Some? && !Excluded(x.address.value))
      && (forall i | 0 <= i < |ts| :: ts[i].address.Some? && !Excluded(ts[i].address.value) ==> ts[i] in r)
  {
    if ts != [] {
      RegionFilteredKeeps(ts[1..]);
      var rest := RegionFiltered(ts[1..]).value;
      var r := RegionFiltered(ts).value;
      if Excluded(ts[0].address.value) {
        assert r == rest;
        SubsequenceDropHead(r, ts);
      } else {
        assert r == [ts[0]] + rest;
        assert r[1..] == rest;
      }
      forall i | 0 <= i < |ts| && ts[i].address.Some? && !Excluded(ts[i].address.value)
        ensures ts[i] in r
      {
        if i > 0 {
          assert ts[1..][i - 1] == ts[i];
        }
      }
    }
  }

  /** `clear_entities` on a search page: the kept listings of all entities
      concatenated in order; no `entities` gives the empty list. */
  function ClearEntitiesSpec(page: SearchPage): Result<seq<RawListing>> {
    if page.entities.None? then Ok([]) else Flatten(page.entities.value)
  }

  function Flatten(es: seq<Entity>): Result<seq<RawListing>> {
    if es == [] then Ok([])
    else match ClearTendersSpec(es[0])
      case Err(e) => Err(e)
      case Ok(a) => Prepend(a, Flatten(es[1..]))
  }

  /** Nothing of the Moscow region survives the page clean-up. */
  lemma {:induction false} FlattenOutsideRegion(es: seq<Entity>)
    requires Flatten(es).Ok?
    ensures forall x | x in Flatten(es).value :: x.address.Some? && !Excluded(x.address.value)
  {
    if es != [] {
      var a := ClearTendersSpec(es[0]).value;
      if es[0].tenders.Some? {
        RegionFilteredKeeps(es[0].tenders.value);
      }
      FlattenOutsideRegion(es[1..]);
      assert Flatten(es).value == a + Flatten(es[1..]).value;
    }
  }

  // ---------------------------------------------------------------------
  // Deposit

  /** `find_deposit_value`: only the entry labelled exactly "Размер задатка"
      with a string value yields a number; it is `int` of the text before the
      first comma with every blank removed, and a ValueError otherwise. */
  function FindDepositValue(info: InfoEntry): (r: Result<Option<int>>)
    ensures info.caption != Some(DEPOSIT_LABEL) || info.value.None? ==> r == Ok(None)
    ensures info.caption == Some(DEPOSIT_LABEL) && info.value.Some? ==>
      r.Ok? == PythonInt(Join(Words(Split(info.value.value, ',')[0]), "")).Some?
    ensures r.Err? ==> r.error == ValueError
  {
    if info.caption.None? || info.caption.value != DEPOSIT_LABEL then Ok(None)
    else if info.value.None? then Ok(None)
    else
      var beforeComma := Split(info.value.value, ',')[0];
      var digits := Join(Words(beforeComma), "");
      match PythonInt(digits)
      case None => Err(ValueError)
      case Some(n) => Ok(Some(n))
  }

  /** Digit groups joined by single blanks: no comma, and `split()` then
      `''.join` runs them together into one integer. */
  lemma DigitGroupsText(groups: seq<string>)
    requires |groups| > 0 && forall k | 0 <= k < |groups| :: IsDigits(groups[k])
    ensures IsDigits(Join(groups, ""))
    ensures ',' !in Join(groups, " ")
    ensures PythonInt(Join(Words(Join(groups, " ")), "")) == Some(DigitsValue(Join(groups, "")))
  {
    DigitGroupsJoined(groups);
    assert ',' !in Join(groups, " ") by {
      forall k | 0 <= k < |groups|
        ensures ',' !in groups[k]
      {
        assert !IsDigit(',');
      }
      NotInJoin(groups, " ", ',');
    }
    assert Words(Join(groups, " ")) == groups by {
      forall k | 0 <= k < |groups|
        ensures |groups[k]| > 0 && NoSpace(groups[k])
      {
        NoSpaceInDigits(groups[k]);
      }
      WordsOfJoined(groups);
    }
    DigitsInt(Join(groups, ""));
  }

  /** "150 000,00", "1 500 000,00" and "150 000" style deposits: any
      non-empty run of digit groups separated by single blanks, with or
      without a comma and a tail, gives the groups run together. */
  lemma DepositOfDigitGroups(groups: seq<string>, tail: string)
    requires |groups| > 0 && forall k | 0 <= k < |groups| :: IsDigits(groups[k])
    ensures IsDigits(Join(groups, ""))
    ensures var n := DigitsValue(Join(groups, ""));
      && FindDepositValue(InfoEntry(Some(DEPOSIT_LABEL), Some(Join(groups, " ")))) == Ok(Some(n))
      && FindDepositValue(InfoEntry(Some(DEPOSIT_LABEL), Some(Join(groups, " ") + "," + tail))) == Ok(Some(n))
  {
    var text := Join(groups, " ");
    DigitGroupsText(groups);
    var n := DigitsValue(Join(groups, ""));
    assert Split(text, ',')[0] == text by {
      SplitNoSeparator(text, ',');
    }
    assert Split(text + "," + tail, ',')[0] == text by {
      SplitAtSeparator(text, tail, ',');
      assert text + "," + tail == text + [','] + tail;
    }
    DepositOfSplit(InfoEntry(Some(DEPOSIT_LABEL), Some(text)), n);
    DepositOfSplit(InfoEntry(Some(DEPOSIT_LABEL), Some(text + "," + tail)), n);
  }

  lemma DepositOfSplit(info: InfoEntry, n: int)
    requires info.caption == Some(DEPOSIT_LABEL) && info.value.Some?
    requires PythonInt(Join(Words(Split(info.value.value, ',')[0]), "")) == Some(n)
    ensures FindDepositValue(info) == Ok(Some(n))
  {
  }

  /** `int` of a plain digit string is its value. */
  lemma DigitsInt(d: string)
    requires IsDigits(d)
    ensures PythonInt(d) == Some(DigitsValue(d))
  {
    NoSpaceInDigits(d);
    assert IsStripped(d) by { assert !IsSpace(d[0]) && !IsSpace(d[|d| - 1]); }
    StripStripped(d);
    assert IsDigit(d[0]);
  }

  /** Python truthiness of a read deposit: present and non-zero. */
  predicate Truthy(d: Option<int>) {
    d.Some? && d.value != 0
  }

  /** A read that is not truthy and did not raise: no deposit, or 0. */
  predicate Falsy(d: Result<Option<int>>) {
    d == Ok(None) || d == Ok(Some(0))
  }

  /** `get_deposit`'s loop over the entries' reads, in order: the first read
      that raises or is truthy decides; None when there is neither. */
  function FirstTruthy(ds: seq<Result<Option<int>>>): (r: Result<Option<int>>)
    ensures r.Ok? && r.value.Some? ==> r.value.value != 0 && r in ds
  {
    if ds == [] then Ok(None)
    else if ds[0].Err? || Truthy(ds[0].value) then ds[0]
    else
      var rest := FirstTruthy(ds[1..]);
      assert rest.Ok? && rest.value.Some? ==> rest in ds by {
        if rest.Ok? && rest.value.Some? {
          var k :| 0 <= k < |ds[1..]| && ds[1..][k] == rest;
          assert ds[k + 1] == rest;
        }
      }
      rest
  }

  /** The first truthy read wins over everything after it. */
  lemma {:induction false} FirstTruthyIsFirst(ds: seq<Result<Option<int>>>, i: nat, n: int)
    requires i < |ds|
    requires forall j | 0 <= j < i :: Falsy(ds[j])
    requires ds[i] == Ok(Some(n)) && n != 0
    ensures FirstTruthy(ds) == Ok(Some(n))
  {
    if i > 0 {
      assert Falsy(ds[0]);
      assert forall j | 0 <= j < i - 1 :: ds[1..][j] == ds[j + 1];
      FirstTruthyIsFirst(ds[1..], i - 1, n);
    }
  }

  /** A read that raises before any truthy one decides the result. */
  lemma {:induction false} FirstTruthyRaises(ds: seq<Result<Option<int>>>, i: nat)
    requires i < |ds|
    requires forall j | 0 <= j < i :: Falsy(ds[j])
    requires ds[i].Err?
    ensures FirstTruthy(ds) == ds[i]
  {
    if i > 0 {
      assert Falsy(ds[0]);
      assert forall j | 0 <= j < i - 1 :: ds[1..][j] == ds[j + 1];
      FirstTruthyRaises(ds[1..], i - 1);
    }
  }

  /** Without a truthy read or an error, there is no deposit. */
  lemma {:induction false} FirstTruthyNone(ds: seq<Result<Option<int>>>)
    requires forall j | 0 <= j < |ds| :: Falsy(ds[j])
    ensures FirstTruthy(ds) == Ok(None)
  {
    if ds != [] {
      assert Falsy(ds[0]);
      assert forall j | 0 <= j < |ds| - 1 :: ds[1..][j] == ds[j + 1];
      FirstTruthyNone(ds[1..]);
    }
  }

  /** `get_deposit`'s loop: the first truthy (non-zero) deposit in order;
      an entry that raises stops the search. */
  function FirstDeposit(infos: seq<InfoEntry>): (r: Result<Option<int>>)
    ensures r.Ok? && r.value.Some? ==> (r.value.value != 0 &&
      exists i | 0 <= i < |infos| :: FindDepositValue(infos[i]) == Ok(r.value))
  {
    var ds := Map(FindDepositValue, infos);
    var r := FirstTruthy(ds);
    if r.Ok? && r.value.Some? then
      var i :| 0 <= i < |ds| && ds[i] == r;
      assert FindDepositValue(infos[i]) == Ok(r.value);
      r
    else r
  }

  /** A deposit of 0 (or an entry without a deposit) is passed over. */
  lemma ZeroDepositSkipped(infos: seq<InfoEntry>)
    requires infos != []
    requires Falsy(FindDepositValue(infos[0]))
    ensures FirstDeposit(infos) == FirstDeposit(infos[1..])
  {
    var ds := Map(FindDepositValue, infos);
    assert ds[0] == FindDepositValue(infos[0]);
    MapDrop(FindDepositValue, infos, 1);
  }

  /** A successful read gives a number exactly for the deposit label with a
      string value. */
  lemma DepositOnlyFromLabel(info: InfoEntry)
    requires FindDepositValue(info).Ok?
    ensures FindDepositValue(info).value.Some? <==> info.caption == Some(DEPOSIT_LABEL) && info.value.Some?
  {
  }

  /** The first truthy deposit wins: when every earlier entry is falsy and
      entry `i` gives a non-zero `n`, the loop returns `n`. */
  lemma FirstDepositIsFirst(infos: seq<InfoEntry>, i: nat, n: int)
    requires i < |infos|
    requires forall j | 0 <= j < i :: Falsy(FindDepositValue(infos[j]))
    requires FindDepositValue(infos[i]) == Ok(Some(n)) && n != 0
    ensures FirstDeposit(infos) == Ok(Some(n))
  {
    var ds := Map(FindDepositValue, infos);
    assert forall j | 0 <= j < |infos| :: ds[j] == FindDepositValue(infos[j]);
    FirstTruthyIsFirst(ds, i, n);
  }

  /** An entry that raises before any truthy deposit stops the loop with its error. */
  lemma FirstDepositRaises(infos: seq<InfoEntry>, i: nat)
    requires i < |infos|
    requires forall j | 0 <= j < i :: Falsy(FindDepositValue(infos[j]))
    requires FindDepositValue(infos[i]).Err?
    ensures FirstDeposit(infos) == Err(ValueError)
  {
    var ds := Map(FindDepositValue, infos);
    assert forall j | 0 <= j < |infos| :: ds[j] == FindDepositValue(infos[j]);
    FirstTruthyRaises(ds, i);
  }

  /** When no entry raises and none is truthy, there is no deposit. */
  lemma FirstDepositNone(infos: seq<InfoEntry>)
    requires forall j | 0 <= j < |infos| :: Falsy(FindDepositValue(infos[j]))
    ensures FirstDeposit(infos) == Ok(None)
  {
    var ds := Map(FindDepositValue, infos);
    assert forall j | 0 <= j < |infos| :: ds[j] == FindDepositValue(infos[j]);
    FirstTruthyNone(ds);
  }

  /** `get_deposit` on a detail record: a missing or empty `procedureInfo` gives None. */
  function DepositOf(detail: TenderDetail): Result<Option<int>> {
    if detail.procedureInfo.None? || detail.procedureInfo.value == [] then Ok(None)
    else FirstDeposit(detail.procedureInfo.value)
  }

  // ---------------------------------------------------------------------
  // Enrichment, as functions of the oracle

  /** `get_url_by_address` without the cache: a truthy url or None. */
  function UrlByAddress(up: Upstream, address: string): (r: Result<Option<string>>)
    ensures r.Ok? && r.value.Some? ==> r.value.value != ""
  {
    match up.addressLookup(address)
    case Err(e) => Err(e)
    case Ok(reply) => if reply.url.Some? && reply.url.value != "" then Ok(reply.url) else Ok(None)
  }

  /** `get_flatinfo_by_url` without the cache. A missing URL (the lookup
      gave none) always fails: `requests.get(None)` raises before any request. */
  function FlatInfoForUrl(up: Upstream, url: Option<string>): (r: Result<FlatInfo>)
    ensures r.Ok? ==> r.value.flatinfoUrl == url && url.Some?
    ensures url.None? ==> r == Err(FetchFailed)
  {
    if url.None? then Err(FetchFailed)
    else match up.detailPage(url.value)
    case Err(e) => Err(e)
    case Ok(page) =>
      match ParsePage(page)
      case Err(e) => Err(e)
      case Ok(fields) =>
        match FlatInfoFromPage(fields)
        case Err(e) => Err(e)
        case Ok(flat) => Ok(flat.(flatinfoUrl := url))
  }

  /** `get_flatinfo` without the caches. */
  function FlatInfoForAddress(up: Upstream, address: string): Result<FlatInfo> {
    match UrlByAddress(up, address)
    case Err(e) => Err(e)
    case Ok(url) => FlatInfoForUrl(up, url)
  }

  /** `construct_tender` without the caches: None as soon as any step raises. */
  function ConstructTenderSpec(up: Upstream, raw: RawListing): Option<Tender> {
    match ParseInvestInfo(raw)
    case Err(_) => None
    case Ok(info) =>
      match up.tenderDetail(info.id)
      case Err(_) => None
      case Ok(detail) =>
        match DepositOf(detail)
        case Err(_) => None
        case Ok(deposit) =>
          match FlatInfoForAddress(up, info.cleanAddress)
          case Err(_) => None
          case Ok(flat) => Some(Build(flat, info.(deposit := deposit)))
  }

  /** The values of the present entries, in order. */
  function Successes<T>(os: seq<Option<T>>): (r: seq<T>)
    ensures |r| <= |os|
  {
    if os == [] then []
    else (if os[0].Some? then [os[0].value] else []) + Successes(os[1..])
  }

  lemma {:induction false} SuccessesConcat<T>(a: seq<Option<T>>, b: seq<Option<T>>)
    ensures Successes(a + b) == Successes(a) + Successes(b)
  {
    if a != [] {
      assert (a + b)[0] == a[0];
      assert (a + b)[1..] == a[1..] + b;
      SuccessesConcat(a[1..], b);
      var h := if a[0].Some? then [a[0].value] else [];
      assert h + (Successes(a[1..]) + Successes(b)) == (h + Successes(a[1..])) + Successes(b);
    } else {
      assert a + b == b;
    }
  }

  lemma {:induction false} SuccessesFrom<T>(os: seq<Option<T>>)
    ensures forall t | t in Successes(os) :: exists i | 0 <= i < |os| :: os[i] == Some(t)
  {
    if os != [] {
      SuccessesFrom(os[1..]);
      forall t | t in Successes(os)
        ensures exists i | 0 <= i < |os| :: os[i] == Some(t)
      {
        if os[0] != Some(t) {
          assert t in Successes(os[1..]);
          var i :| 0 <= i < |os[1..]| && os[1..][i] == Some(t);
          assert os[i + 1] == os[1..][i];
        }
      }
    }
  }

  lemma SuccessesOne<T>(o: Option<T>)
    ensures Successes([o]) == if o.Some? then [o.value] else []
  {
    assert [o][1..] == [];
  }

  lemma SplitAround<T>(xs: seq<T>, i: nat)
    requires i < |xs|
    ensures xs == (xs[..i] + [xs[i]]) + xs[i + 1..]
  {
    assert xs[i..] == [xs[i]] + xs[i + 1..] by {
      assert xs[i..][1..] == xs[i + 1..];
    }
    assert xs == xs[..i] + xs[i..];
  }

  lemma SuccessesAt<T>(os: seq<Option<T>>, i: nat)
    requires i < |os|
    ensures Successes(os) == Successes(os[..i]) + (if os[i].Some? then [os[i].value] else []) + Successes(os[i + 1..])
  {
    var a, b, c := os[..i], [os[i]], os[i + 1..];
    SplitAround(os, i);
    SuccessesConcat(a + b, c);
    SuccessesConcat(a, b);
    SuccessesOne(os[i]);
  }

  lemma {:induction false} SuccessesAllPresent<T>(os: seq<Option<T>>)
    requires forall i | 0 <= i < |os| :: os[i].Some?
    ensures |Successes(os)| == |os|
    ensures forall i | 0 <= i < |os| :: Successes(os)[i] == os[i].value
  {
    if os != [] {
      var rest := os[1..];
      assert forall i | 0 <= i < |rest| :: rest[i] == os[i + 1];
      SuccessesAllPresent(rest);
      var r := Successes(os);
      assert r == [os[0].value] + Successes(rest);
      forall i | 0 <= i < |os|
        ensures r[i] == os[i].value
      {
        if i > 0 {
          assert r[i] == Successes(rest)[i - 1];
        }
      }
    }
  }

  /** `construct_tender` as a function of the listing. */
  function Attempt(up: Upstream): RawListing -> Option<Tender> {
    raw => ConstructTenderSpec(up, raw)
  }

  /** The second loop of `run`: the non-None constructions, in crawl order. */
  function Constructed(up: Upstream, ts: seq<RawListing>): (r: seq<Tender>)
    ensures |r| <= |ts|
  {
    Successes(Map(Attempt(up), ts))
  }

  /** One step of the construction loop: appending the head's tender (if
      any) to what is already built, then the rest, gives the whole. */
  lemma ConstructedStep(up: Upstream, ts: seq<RawListing>, built: seq<Tender>, head: Option<Tender>)
    requires ts != [] && head == ConstructTenderSpec(up, ts[0])
    ensures (built + (if head.Some? then [head.value] else [])) + Constructed(up, ts[1..])
      == built + Constructed(up, ts)
  {
    var h := if head.Some? then [head.value] else [];
    var os := Map(Attempt(up), ts);
    assert os[0] == head;
    MapDrop(Attempt(up), ts, 1);
    assert Successes(os) == h + Successes(os[1..]);
    assert (built + h) + Constructed(up, ts[1..]) == built + (h + Constructed(up, ts[1..]));
  }

  /** Every output tender is the construction of some crawled listing. */
  lemma ConstructedFrom(up: Upstream, ts: seq<RawListing>)
    ensures forall t | t in Constructed(up, ts) ::
      exists i | 0 <= i < |ts| :: ConstructTenderSpec(up, ts[i]) == Some(t)
  {
    var os := Map(Attempt(up), ts);
    SuccessesFrom(os);
    forall t | t in Constructed(up, ts)
      ensures exists i | 0 <= i < |ts| :: ConstructTenderSpec(up, ts[i]) == Some(t)
    {
      var i :| 0 <= i < |os| && os[i] == Some(t);
      assert ConstructTenderSpec(up, ts[i]) == os[i];
    }
  }

  /** Constructing a concatenation constructs each part: one listing's
      outcome never affects another's, and crawl order is kept. */
  lemma ConstructedConcat(up: Upstream, ts: seq<RawListing>, us: seq<RawListing>)
    ensures Constructed(up, ts + us) == Constructed(up, ts) + Constructed(up, us)
  {
    MapConcat(Attempt(up), ts, us);
    SuccessesConcat(Map(Attempt(up), ts), Map(Attempt(up), us));
  }

  /** Every listing that constructs has its tender in the output. */
  lemma ConstructedKeeps(up: Upstream, ts: seq<RawListing>, i: nat)
    requires i < |ts| && ConstructTenderSpec(up, ts[i]).Some?
    ensures ConstructTenderSpec(up, ts[i]).value in Constructed(up, ts)
  {
    var os := Map(Attempt(up), ts);
    assert os[i] == ConstructTenderSpec(up, ts[i]);
    SuccessesAt(os, i);
  }

  /** A listing that fails drops out and leaves the rest as they were. */
  lemma ConstructedSkips(up: Upstream, ts: seq<RawListing>, i: nat)
    requires i < |ts| && ConstructTenderSpec(up, ts[i]).None?
    ensures Constructed(up, ts) == Constructed(up, ts[..i]) + Constructed(up, ts[i + 1..])
  {
    var os := Map(Attempt(up), ts);
    assert os[i] == ConstructTenderSpec(up, ts[i]);
    SuccessesAt(os, i);
    MapTake(Attempt(up), ts, i);
    MapDrop(Attempt(up), ts, i + 1);
  }

  /** When every listing constructs, the output is their tenders, one for
      one and in crawl order. */
  lemma ConstructedAllSucceed(up: Upstream, ts: seq<RawListing>)
    requires forall i | 0 <= i < |ts| :: ConstructTenderSpec(up, ts[i]).Some?
    ensures |Constructed(up, ts)| == |ts|
    ensures forall i | 0 <= i < |ts| :: Constructed(up, ts)[i] == ConstructTenderSpec(up, ts[i]).value
  {
    var os := Map(Attempt(up), ts);
    assert forall i | 0 <= i < |ts| :: os[i] == ConstructTenderSpec(up, ts[i]);
    SuccessesAllPresent(os);
  }

  /** A lookup that gives no URL drops the listing: the page read of a
      missing URL always fails. */
  lemma NoUrlNoTender(up: Upstream, raw: RawListing)
    requires ParseInvestInfo(raw).Ok?
    requires UrlByAddress(up, ParseInvestInfo(raw).value.cleanAddress) == Ok(None)
    ensures ConstructTenderSpec(up, raw).None?
  {
  }

  /** Every constructed tender carries the non-empty URL it was read from. */
  lemma ConstructedHasUrl(up: Upstream, raw: RawListing)
    requires ConstructTenderSpec(up, raw).Some?
    ensures var t := ConstructTenderSpec(up, raw).value;
      t.flatinfoUrl.Some? && t.flatinfoUrl.value != ""
  {
    var info := ParseInvestInfo(raw).value;
    var url := UrlByAddress(up, info.cleanAddress);
    assert url.Ok? && url.value.Some?;
  }

  /** The tender short address is always the cleaned full address. */
  lemma ConstructedAddressIsClean(up: Upstream, raw: RawListing)
    requires ConstructTenderSpec(up, raw).Some?
    ensures var t := ConstructTenderSpec(up, raw).value;
      && t.address == CleanAddress(t.fullAddress)
      && (forall seg | seg in Split(t.address, ',') :: !IsNoise(seg))
  {
    ParsedAddressIsClean(raw, raw.cleanAddress);
  }

  /** The search request of page `p`. */
  function QueryOf(filters: map<string, Converted>, p: int): SearchQuery {
    SearchQuery(p, PAGE_SIZE, filters)
  }

  /** The first loop of `run` from page `p` to `end - 1`. */
  function CrawlFrom(up: Upstream, filters: map<string, Converted>, p: int, end: int): Result<seq<RawListing>>
    decreases end - p
  {
    if p >= end then Ok([])
    else match up.searchPage(QueryOf(filters, p))
      case Err(e) => Err(e)
      case Ok(page) =>
        match ClearEntitiesSpec(page)
        case Err(e) => Err(e)
        case Ok(a) => Prepend(a, CrawlFrom(up, filters, p + 1, end))
  }

  /** One step of the crawl loop: a fetched and filtered page `p` moves its
      listings from the rest of the crawl to what is already collected. */
  lemma CrawlStep(up: Upstream, filters: map<string, Converted>, p: int, end: int,
                  all: seq<RawListing>, page: SearchPage, a: seq<RawListing>)
    requires p < end
    requires up.searchPage(QueryOf(filters, p)) == Ok(page) && ClearEntitiesSpec(page) == Ok(a)
    ensures Prepend(all + a, CrawlFrom(up, filters, p + 1, end)) == Prepend(all, CrawlFrom(up, filters, p, end))
  {
    var rest := CrawlFrom(up, filters, p + 1, end);
    assert CrawlFrom(up, filters, p, end) == Prepend(a, rest);
    if rest.Ok? {
      assert (all + a) + rest.value == all + (a + rest.value);
    }
  }

  /** The total announced by the discovery fetch of page 1. */
  function TotalOf(up: Upstream, filters: map<string, Converted>): Option<int> {
    match up.searchPage(QueryOf(filters, 1))
    case Err(_) => None
    case Ok(page) => page.totalCount
  }

  /** `Parser().run(params)`: the discovery fetch raises, or a missing
      `totalCount` raises KeyError; otherwise the crawl, then the construction. */
  function RunSpec(up: Upstream, filters: map<string, Converted>): Result<seq<Tender>> {
    match up.searchPage(QueryOf(filters, 1))
    case Err(e) => Err(e)
    case Ok(first) =>
      if first.totalCount.None? then Err(KeyError("totalCount"))
      else
        match CrawlFrom(up, filters, 1, EndPage(first.totalCount.value))
        case Err(e) => Err(e)
        case Ok(all) => Ok(Constructed(up, all))
  }

  /** A run never returns more tenders than the crawl kept, and each came
      from one of them; none is from the Moscow region. */
  lemma {:induction false} CrawlOutsideRegion(up: Upstream, filters: map<string, Converted>, p: int, end: int)
    requires CrawlFrom(up, filters, p, end).Ok?
    ensures forall x | x in CrawlFrom(up, filters, p, end).value :: x.address.Some? && !Excluded(x.address.value)
    decreases end - p
  {
    if p < end {
      var page := up.searchPage(QueryOf(filters, p)).value;
      if page.entities.Some? {
        FlattenOutsideRegion(page.entities.value);
      }
      CrawlOutsideRegion(up, filters, p + 1, end);
    }
  }

  /** A successful run returns at most one tender per kept listing, each
      built from one of them, and none of them from the Moscow region. */
  lemma RunOutputFromCrawl(up: Upstream, filters: map<string, Converted>)
    requires RunSpec(up, filters).Ok?
    ensures TotalOf(up, filters).Some?
    ensures var crawl := CrawlFrom(up, filters, 1, EndPage(TotalOf(up, filters).value));
      && crawl.Ok?
      && |RunSpec(up, filters).value| <= |crawl.value|
      && (forall x | x in crawl.value :: x.address.Some? && !Excluded(x.address.value))
      && (forall t | t in RunSpec(up, filters).value ::
            exists i | 0 <= i < |crawl.value| :: ConstructTenderSpec(up, crawl.value[i]) == Some(t))
      && (forall i | 0 <= i < |crawl.value| && ConstructTenderSpec(up, crawl.value[i]).Some? ::
            ConstructTenderSpec(up, crawl.value[i]).value in RunSpec(up, filters).value)
      && ((forall i | 0 <= i < |crawl.value| :: ConstructTenderSpec(up, crawl.value[i]).Some?) ==>
            |RunSpec(up, filters).value| == |crawl.value| &&
            forall i | 0 <= i < |crawl.value| ::
              RunSpec(up, filters).value[i] == ConstructTenderSpec(up, crawl.value[i]).value)
  {
    var crawl := CrawlFrom(up, filters, 1, EndPage(TotalOf(up, filters).value));
    var out := RunSpec(up, filters).value;
    assert out == Constructed(up, crawl.value);
    CrawlOutsideRegion(up, filters, 1, EndPage(TotalOf(up, filters).value));
    ConstructedFrom(up, crawl.value);
    forall i | 0 <= i < |crawl.value| && ConstructTenderSpec(up, crawl.value[i]).Some?
      ensures ConstructTenderSpec(up, crawl.value[i]).value in out
    {
      ConstructedKeeps(up, crawl.value, i);
    }
    if forall i | 0 <= i < |crawl.value| :: ConstructTenderSpec(up, crawl.value[i]).Some? {
      ConstructedAllSucceed(up, crawl.value);
    }
  }

  // ---------------------------------------------------------------------
  // The parser object

  /** Every record cached under an address is what the uncached lookup gives. */
  ghost predicate AddressCacheAgrees(up: Upstream, cache: map<string, FlatInfo>) {
    forall a | a in cache :: FlatInfoForAddress(up, a) == Ok(cache[a])
  }

  /** Every record cached under a URL is what reading that URL gives. */
  ghost predicate UrlCacheAgrees(up: Upstream, cache: map<Option<string>, FlatInfo>) {
    forall u | u in cache :: FlatInfoForUrl(up, u) == Ok(cache[u])
  }

  /** Caching the uncached result under a new address keeps the cache in agreement. */
  lemma AddressCacheStore(up: Upstream, cache: map<string, FlatInfo>, a: string, v: FlatInfo)
    requires AddressCacheAgrees(up, cache) && FlatInfoForAddress(up, a) == Ok(v)
    ensures AddressCacheAgrees(up, cache[a := v])
  {
  }

  /** Caching the uncached result under a new URL keeps the cache in agreement. */
  lemma UrlCacheStore(up: Upstream, cache: map<Option<string>, FlatInfo>, u: Option<string>, v: FlatInfo)
    requires UrlCacheAgrees(up, cache) && FlatInfoForUrl(up, u) == Ok(v)
    ensures UrlCacheAgrees(up, cache[u := v])
  {
  }

  class Parser {
    const upstream: Upstream
    var params: FilterParams?
    var addressCache: map<string, FlatInfo>
    var urlCache: map<Option<string>, FlatInfo>

    /** How many times each outbound call was made, and the page numbers
        sent to the search, in order. */
    ghost var searchCalls: nat
    ghost var detailCalls: nat
    ghost var lookupCalls: nat
    ghost var pageCalls: nat
    ghost var requestedPages: seq<int>

    /** Every cached FlatInfo is what the uncached path would produce, so a
        cache hit changes no result. */
    ghost predicate Coherent()
      reads this
    {
      AddressCacheAgrees(upstream, addressCache) && UrlCacheAgrees(upstream, urlCache)
    }

    constructor(upstream: Upstream)
      ensures this.upstream == upstream && params == null
      ensures addressCache == map[] && urlCache == map[]
      ensures searchCalls == 0 && detailCalls == 0 && lookupCalls == 0 && pageCalls == 0
      ensures requestedPages == []
      ensures Coherent()
    {
      this.upstream := upstream;
      params := null;
      addressCache := map[];
      urlCache := map[];
      searchCalls, detailCalls, lookupCalls, pageCalls := 0, 0, 0, 0;
      requestedPages := [];
    }

    /** `_get_page_data(page_number)`: the page number is written into the
        filter object before the request is built and sent. */
    method GetPageData(pageNumber: int) returns (r: Result<SearchPage>)
      requires params != null
      modifies this, params
      ensures params == old(params) && params.pageNumber == pageNumber
      ensures params.pageSize == old(params.pageSize) && params.filters == old(params.filters)
      ensures r == upstream.searchPage(SearchQuery(pageNumber, params.pageSize, params.filters))
      ensures searchCalls == old(searchCalls) + 1 && requestedPages == old(requestedPages) + [pageNumber]
      ensures detailCalls == old(detailCalls) && lookupCalls == old(lookupCalls) && pageCalls == old(pageCalls)
      ensures addressCache == old(addressCache) && urlCache == old(urlCache)
    {
      params.pageNumber := pageNumber;
      var query := params.AsQuery();
      r := upstream.searchPage(query);
      searchCalls := searchCalls + 1;
      requestedPages := requestedPages + [pageNumber];
    }

    /** `clear_tenders(entity)`. */
    static method ClearTenders(entity: Entity) returns (r: Result<seq<RawListing>>)
      ensures r == ClearTendersSpec(entity)
    {
      if entity.tenders.None? {
        return Ok([]);
      }
      var tenders := entity.tenders.value;
      var cleaned: seq<RawListing> := [];
      var i := 0;
      assert tenders[0..] == tenders;
      PrependNothing(RegionFiltered(tenders));
      while i < |tenders|
        invariant 0 <= i <= |tenders|
        invariant Prepend(cleaned, RegionFiltered(tenders[i..])) == RegionFiltered(tenders)
      {
        var address := tenders[i].address;
        if address.None? {
          return Err(AttributeError);
        }
        var rest := RegionFiltered(tenders[i + 1..]);
        assert tenders[i..][1..] == tenders[i + 1..];
        if !Contains(Lower(address.value), EXCLUDED_REGION) {
          assert rest.Ok? ==> cleaned + ([tenders[i]] + rest.value) == cleaned + [tenders[i]] + rest.value;
          cleaned := cleaned + [tenders[i]];
        } else {
          assert rest.Ok? ==> [] + rest.value == rest.value;
        }
        i := i + 1;
      }
      assert cleaned + [] == cleaned;
      return Ok(cleaned);
    }

    /** `clear_entities(page)`. */
    static method ClearEntities(page: SearchPage) returns (r: Result<seq<RawListing>>)
      ensures r == ClearEntitiesSpec(page)
    {
      if page.entities.None? {
        return Ok([]);
      }
      var entities := page.entities.value;
      var cleaned: seq<RawListing> := [];
      var i := 0;
      assert entities[0..] == entities;
      PrependNothing(Flatten(entities));
      while i < |entities|
        invariant 0 <= i <= |entities|
        invariant Prepend(cleaned, Flatten(entities[i..])) == Flatten(entities)
      {
        var tenders := ClearTenders(entities[i]);
        assert entities[i..][1..] == entities[i + 1..];
        if tenders.Err? {
          return Err(tenders.error);
        }
        var rest := Flatten(entities[i + 1..]);
        assert rest.Ok? ==> cleaned + (tenders.value + rest.value) == cleaned + tenders.value + rest.value;
        cleaned := cleaned + tenders.value;
        i := i + 1;
      }
      assert cleaned + [] == cleaned;
      return Ok(cleaned);
    }

    /** `get_deposit(detail)`. */
    static method GetDeposit(detail: TenderDetail) returns (r: Result<Option<int>>)
      ensures r == DepositOf(detail)
    {
      if detail.procedureInfo.None? || detail.procedureInfo.value == [] {
        return Ok(None);
      }
      var infos := detail.procedureInfo.value;
      ghost var ds := Map(FindDepositValue, infos);
      var i := 0;
      while i < |infos|
        invariant 0 <= i <= |infos|
        invariant FirstTruthy(ds[i..]) == FirstDeposit(infos)
      {
        var deposit := FindDepositValue(infos[i]);
        assert ds[i..][0] == deposit;
        assert ds[i..][1..] == ds[i + 1..];
        if deposit.Err? {
          return Err(deposit.error);
        }
        if deposit.value.Some? && deposit.value.value != 0 {
          return deposit;
        }
        i := i + 1;
      }
      return Ok(None);
    }

    /** `get_url_by_address(address)`: one lookup call. */
    method GetUrlByAddress(address: string) returns (r: Result<Option<string>>)
      modifies this
      ensures r == UrlByAddress(upstream, address)
      ensures lookupCalls == old(lookupCalls) + 1
      ensures searchCalls == old(searchCalls) && detailCalls == old(detailCalls) && pageCalls == old(pageCalls)
      ensures requestedPages == old(requestedPages)
      ensures addressCache == old(addressCache) && urlCache == old(urlCache) && params == old(params)
    {
      var reply := upstream.addressLookup(address);
      lookupCalls := lookupCalls + 1;
      if reply.Err? {
        return Err(reply.error);
      }
      var url := reply.value.url;
      if url.Some? && url.value != "" {
        return Ok(url);
      }
      return Ok(None);
    }

    /** `get_flatinfo_by_url(url)`: a cached URL makes no page fetch; a miss
        fetches and parses the page and caches the record, with its
        `flatinfo_url` set, only when all of that succeeds. */
    method GetFlatinfoByUrl(url: Option<string>) returns (r: Result<FlatInfo>)
      requires Coherent()
      modifies this
      ensures Coherent()
      ensures r == FlatInfoForUrl(upstream, url)
      ensures url in old(urlCache) ==> pageCalls == old(pageCalls) && urlCache == old(urlCache)
      ensures url !in old(urlCache) ==> pageCalls == old(pageCalls) + 1
      ensures url !in old(urlCache) && r.Ok? ==> urlCache == old(urlCache)[url := r.value]
      ensures url !in old(urlCache) && r.Err? ==> urlCache == old(urlCache)
      ensures r.Ok? ==> r.value.flatinfoUrl == url
      ensures searchCalls == old(searchCalls) && detailCalls == old(detailCalls) && lookupCalls == old(lookupCalls)
      ensures requestedPages == old(requestedPages)
      ensures addressCache == old(addressCache) && params == old(params)
    {
      if url in urlCache {
        return Ok(urlCache[url]);
      }
      pageCalls := pageCalls + 1;
      if url.None? {
        return Err(FetchFailed);
      }
      var text := upstream.detailPage(url.value);
      if text.Err? {
        return Err(text.error);
      }
      var page := new PageParser(text.value);
      var fields := page.Parse();
      if fields.Err? {
        return Err(fields.error);
      }
      var flat := FlatInfoFromPage(fields.value);
      if flat.Err? {
        return Err(flat.error);
      }
      var info := flat.value.(flatinfoUrl := url);
      UrlCacheStore(upstream, urlCache, url, info);
      urlCache := urlCache[url := info];
      return Ok(info);
    }

    /** `get_flatinfo(address)`: a cached address makes no call at all; a
        miss looks the URL up, reads it (through the URL cache) and caches
        the record under the address only when both succeed. */
    method GetFlatinfo(address: string) returns (r: Result<FlatInfo>)
      requires Coherent()
      modifies this
      ensures Coherent()
      ensures r == FlatInfoForAddress(upstream, address)
      ensures address in old(addressCache) ==>
        lookupCalls == old(lookupCalls) && pageCalls == old(pageCalls)
        && addressCache == old(addressCache) && urlCache == old(urlCache)
      ensures address !in old(addressCache) ==>
        lookupCalls == old(lookupCalls) + 1 && pageCalls <= old(pageCalls) + 1
      ensures address !in old(addressCache) && r.Ok? ==> addressCache == old(addressCache)[address := r.value]
      ensures address !in old(addressCache) && r.Err? ==> addressCache == old(addressCache)
      ensures old(urlCache).Keys <= urlCache.Keys
      ensures searchCalls == old(searchCalls) && detailCalls == old(detailCalls)
      ensures requestedPages == old(requestedPages) && params == old(params)
    {
      if address in addressCache {
        return Ok(addressCache[address]);
      }
      var url := GetUrlByAddress(address);
      if url.Err? {
        return Err(url.error);
      }
      r := GetFlatinfoByUrl(url.value);
      if r.Err? {
        return;
      }
      AddressCacheStore(upstream, addressCache, address, r.value);
      addressCache := addressCache[address := r.value];
    }

    /** `construct_tender(raw)`: None whenever any step raises. */
    method ConstructTender(raw: RawListing) returns (r: Option<Tender>)
      requires Coherent()
      modifies this
      ensures Coherent()
      ensures r == ConstructTenderSpec(upstream, raw)
      ensures searchCalls == old(searchCalls) && requestedPages == old(requestedPages) && params == old(params)
      ensures detailCalls <= old(detailCalls) + 1 && lookupCalls <= old(lookupCalls) + 1 && pageCalls <= old(pageCalls) + 1
      ensures old(addressCache).Keys <= addressCache.Keys && old(urlCache).Keys <= urlCache.Keys
      ensures ParseInvestInfo(raw).Ok? && ParseInvestInfo(raw).value.cleanAddress in old(addressCache) ==>
        lookupCalls == old(lookupCalls) && pageCalls == old(pageCalls)
      ensures r.Some? ==> ParseInvestInfo(raw).value.cleanAddress in addressCache
    {
      var parsed := ParseInvestInfo(raw);
      if parsed.Err? {
        return None;
      }
      var info := parsed.value;
      var detail := upstream.tenderDetail(info.id);
      detailCalls := detailCalls + 1;
      if detail.Err? {
        return None;
      }
      var deposit := GetDeposit(detail.value);
      if deposit.Err? {
        return None;
      }
      info := info.(deposit := deposit.value);
      var flat := GetFlatinfo(info.cleanAddress);
      if flat.Err? {
        return None;
      }
      return Some(Build(flat.value, info));
    }

    /** `run(params)`: the page size is forced to 10 and both caches are
        emptied; page 1 is fetched once to learn the total, then pages 1 to
        ceil(total/10) are crawled and every kept listing is constructed. */
    method Run(filter: FilterParams) returns (r: Result<seq<Tender>>)
      modifies this, filter
      ensures params == filter && filter.pageSize == PAGE_SIZE && filter.filters == old(filter.filters)
      ensures r == RunSpec(upstream, filter.filters)
      ensures Coherent()
      ensures r.Ok? ==> (TotalOf(upstream, filter.filters).Some? &&
        requestedPages == old(requestedPages) + [1] + Pages(1, EndPage(TotalOf(upstream, filter.filters).value)) &&
        searchCalls == old(searchCalls) + 1 + |Pages(1, EndPage(TotalOf(upstream, filter.filters).value))|)
    {
      params := filter;
      filter.pageSize := PAGE_SIZE;
      addressCache := map[];
      urlCache := map[];

      var first := GetPageData(1);
      if first.Err? {
        return Err(first.error);
      }
      if first.value.totalCount.None? {
        return Err(KeyError("totalCount"));
      }
      var end := EndPage(first.value.totalCount.value);

      var all := Crawl(end);
      if all.Err? {
        return Err(all.error);
      }
      var tenders := ConstructAll(all.value);
      return Ok(tenders);
    }

    /** The first loop of `run`: pages 1 to `end - 1`, cleaned and concatenated. */
    method Crawl(end: int) returns (r: Result<seq<RawListing>>)
      requires params != null && params.pageSize == PAGE_SIZE
      modifies this, params
      ensures params == old(params) && params.pageSize == old(params.pageSize) && params.filters == old(params.filters)
      ensures r == CrawlFrom(upstream, params.filters, 1, end)
      ensures r.Ok? ==> (requestedPages == old(requestedPages) + Pages(1, end) &&
        searchCalls == old(searchCalls) + |Pages(1, end)|)
      ensures addressCache == old(addressCache) && urlCache == old(urlCache)
    {
      var filters := params.filters;
      var size := params.pageSize;
      var all: seq<RawListing> := [];
      var pageNumber := 1;
      PrependNothing(CrawlFrom(upstream, filters, 1, end));
      while pageNumber < end
        invariant 1 <= pageNumber && pageNumber <= (if end >= 1 then end else 1)
        invariant params == old(params) && params.pageSize == size && params.filters == filters
        invariant Prepend(all, CrawlFrom(upstream, filters, pageNumber, end)) == CrawlFrom(upstream, filters, 1, end)
        invariant requestedPages == old(requestedPages) + Pages(1, pageNumber)
        invariant searchCalls == old(searchCalls) + (pageNumber - 1)
        invariant addressCache == old(addressCache) && urlCache == old(urlCache)
        decreases end - pageNumber
      {
        var found := GetPageData(pageNumber);
        if found.Err? {
          return Err(found.error);
        }
        var cleaned := ClearEntities(found.value);
        if cleaned.Err? {
          return Err(cleaned.error);
        }
        CrawlStep(upstream, filters, pageNumber, end, all, found.value, cleaned.value);
        all := all + cleaned.value;
        pageNumber := pageNumber + 1;
      }
      assert all + [] == all;
      assert Pages(1, pageNumber) == Pages(1, end);
      return Ok(all);
    }

    /** The second loop of `run`: the listings that construct, in order. */
    method ConstructAll(all: seq<RawListing>) returns (tenders: seq<Tender>)
      requires Coherent()
      modifies this
      ensures Coherent()
      ensures tenders == Constructed(upstream, all)
      ensures searchCalls == old(searchCalls) && requestedPages == old(requestedPages) && params == old(params)
    {
      tenders := [];
      var i := 0;
      assert all[0..] == all;
      while i < |all|
        invariant 0 <= i <= |all|
        invariant tenders + Constructed(upstream, all[i..]) == Constructed(upstream, all)
        invariant Coherent()
        invariant searchCalls == old(searchCalls) && requestedPages == old(requestedPages) && params == old(params)
      {
        var tender := ConstructTender(all[i]);
        ConstructedStep(upstream, all[i..], tenders, tender);
        assert all[i..][1..] == all[i + 1..];
        tenders := tenders + if tender.Some? then [tender.value] else [];
        i := i + 1;
      }
      assert tenders + [] == tenders;
    }
  }
}
