# house_parser, modelled in Dafny

house_parser crawls the tender search of the Moscow investment portal. It
reads every result page, drops the listings of the Moscow region, reads
each listing's deposit from its detail record, and enriches the listing
with facts scraped from an address-lookup site. Those facts are cached by
address and by page URL. The model covers the logic between the HTTP calls:

- `common.dfy`: `Option`, the Python exceptions that can escape (`Error`), `Result`, and the value type of a scraped field.
- `strings.dfy`: the Python `str` operations the code uses (`strip`, `lower`, `in`, `split(c)`, `split()`, `join`, `replace`, `int`), with their laws.
- `utils.dfy`: `clean_address`, `convert_to_meters` and the three constant tables. The exception test of `clean_address` is an `any()` over the exception words lowered once (`Utils.LOWER_EXCEPTION_WORDS`), which `Utils.ExceptionWordsLowered` proves equal to `lower()` of each word.
- `models.dfy`: the pydantic validator bodies as functions, `InvestInfo.parse_obj` and `FlatInfo.parse_obj` as partial functions, and `TenderBuilder.build`.
- `html_parser.dfy`: the scraper as a class. Its two dictionaries are `map` fields, over an abstract page of label/value rows and an abstract metro block.
- `filter_models.dfy`: the conversion loop of `parse_url`, a method proved against a fold, and the mutable `FilterParams`.
- `parser.dfy`: the crawler as a class.
  - Its caches are `map` fields.
  - Ghost counters record every outbound call and the page numbers requested.
  - The four HTTP calls are an `Upstream` oracle. It answers each request once, with a value or a failure.

Each loop of the source is a `method` with a `while` loop. It is proved
equal to a recursive specification function, and the properties are
proved about that function. The caches satisfy an invariant
(`Parser.Parser.Coherent`): every cached record is what the uncached path
would produce. Because the oracle answers every request the same way each
time, a cache hit never changes a result, and `run` is proved equal to
`Parser.RunSpec`, which has no cache at all.

Where the code and its documented behaviour differ, the model follows the code:

- Nothing is retried. `get_url` calls once (utils/utils.py:43-46).
- A listing whose address lookup gives no URL never yields a tender. `get_url_by_address` then returns None (parser.py:161-168), and `get_page_flatinfo(None)` passes None to `requests.get`, which raises (parser.py:41-48, utils/utils.py:43-46). `Parser.NoUrlNoTender` states this.
- `address_cache` maps an address to a FlatInfo record, not to a URL (parser.py:185-193).
- `return_first_element` gives None for None, and 1 for a scalar or an empty list (models/models.py:49-55).
- `convert_to_meters("1.2 км")` is 12000.0, because every '.' is removed before parsing (utils/utils.py:63).
- The hectare flag never takes effect in a parsed record (models/models.py:26-27, 57-61). pydantic v1 passes a validator only the fields declared before it, and `is_io_area_in_hectars` comes after `object_area`. `Models.HectareFlagIgnored` states this.
- A record without `address` makes `set_clean_address` raise KeyError, which pydantic does not turn into a validation error (models/models.py:63-65).

## Model

| member | source | states |
|---|---|---|
| Utils.CleanAddress | utils/utils.py:49-58 | defines `clean_address`: the comma segments without an exception word, stripped and joined by ", "; its properties are the lemmas below |
| Utils.KeptPartsAreClean | utils/utils.py:51-55 | every kept segment holds no exception word (case-insensitively), is stripped, and holds no comma |
| Utils.KeptPartsInOrder | utils/utils.py:50-57 | the kept segments are an in-order subsequence of the stripped input segments, never more of them |
| Utils.CleanPartIsKept | utils/utils.py:51-55 | a segment without an exception word is kept, stripped |
| Utils.KeptPartIsClean | utils/utils.py:51-55 | every kept segment is the stripped form of some input segment without an exception word |
| Utils.CleanedSegments | utils/utils.py:49-58 | re-splitting the output on ',' gives the kept segments, each after the first behind its ", " blank |
| Utils.CleanAddressHasNoNoise | utils/utils.py:49-58 | no comma segment of the output contains an exception word |
| Utils.CleanAddressFewerSegments | utils/utils.py:49-58 | the output has no more comma segments than the input |
| Utils.CleanAddressIdempotent | utils/utils.py:49-58 | cleaning a cleaned address returns it unchanged |
| Utils.ConvertToMeters | utils/utils.py:61-67 | defines `convert_to_meters`: strip, lower-case, drop dots, split on whitespace, then a number and a unit factor; its properties are the lemmas below |
| Utils.ConvertToMetersSucceeds | utils/utils.py:61-67 | the conversion yields a value exactly when two tokens remain: a digit string and one of км, м, см; the value is never negative |
| Utils.ConvertToMetersRoundTrip | utils/utils.py:61-67 | "n unit" converts to n times the unit's factor |
| Utils.ConvertOfNormal | utils/utils.py:61-67 | any text whose stripped, lower-cased, dot-free form is "digits unit" converts to value times factor |
| Utils.ConvertIgnoresDots | utils/utils.py:63 | "x.y unit" converts exactly as "xy unit", so "1.2 км" is 12000 |
| Utils.UnitNames | utils/utils.py:18-22 | the only units are км, м and см |
| Strings.ContainsOccurs | utils/utils.py:53 | the substring test holds exactly when the word occurs at some index of the text |
| Utils.ExceptionWordsLowered | utils/utils.py:53 | the words matched against are lower() of each exception word, in order |
| Utils.AnyInWitness | utils/utils.py:53-54 | when the any() test holds, some lowered exception word occurs in the lowered segment |
| Models.AddThreeHours | models/models.py:42-47 | a timestamp moves exactly three hours later; a missing value stays None |
| Models.ReturnFirstElement | models/models.py:49-55 | None gives None, a non-empty list its first element, a scalar or empty list 1 |
| Models.ConvertToSquareMeters | models/models.py:57-61 | with a true flag and a non-zero area the area is multiplied by 10000, otherwise unchanged |
| Models.SetCleanAddress | models/models.py:63-65 | whatever was supplied, the result is the cleaned address, free of exception words and a fixed point of cleaning |
| Models.GetFirstUrl | models/models.py:67-72 | the url of the first picture when there is one, otherwise None |
| Models.ParseInvestInfo | models/models.py:22-72 | no address raises KeyError("address"); no id or url is a validation error; otherwise the record parses |
| Models.HectareFlagIgnored | models/models.py:57-61 | in a parsed record the area is never converted from hectares |
| Models.ParsedAddressIsClean | models/models.py:63-65 | a parsed record's clean address is the cleaned address, whatever clean_address value came in |
| Models.ParsedFields | models/models.py:22-72 | id, url and address are copied; room floor, dates and image url are the validators' results |
| Models.ConvertValueToMeters | models/models.py:92-97 | None gives None; blank text raises IndexError; otherwise int of the first token, ValueError when that is not an integer |
| Models.CeilingHeightWholeMeters | models/models.py:92-97 | "3 м" style text gives its whole number |
| Models.CeilingHeightFractionRejected | models/models.py:92-97 | "2.7 м" style text raises ValueError |
| Models.TruncateFloat | models/models.py:86 | a float given for an int field truncates toward zero |
| Models.FlatInfoFromPage | models/models.py:75-97 | an IndexError from the ceiling validator escapes; a parsed record has no flatinfo_url, and its ceiling height is the validator's value |
| Models.Build | models/models.py:132-164 | every Tender field is the named InvestInfo or FlatInfo field, copied unchanged |
| Models.TenderAddressIsClean | models/models.py:141-142 | a built tender's address is the cleaned full address, and its deposit is the one supplied |
| HtmlParser.ScanRow | utils/html_parser.py:135-146 | a row without a label, with an unwanted label or without a value changes nothing; otherwise the label is consumed and its stripped value stored under the mapped key |
| HtmlParser.ScanRows | utils/html_parser.py:98-107 | defines the table scan: `parse_row` on every row in page order; ScanShrinks, ScanFirstMatch and ScanWithoutRecord state what it computes |
| HtmlParser.ScanShrinks | utils/html_parser.py:35-46 | the search dictionary only loses entries, and result keys come from the mapped names |
| HtmlParser.ScanFirstMatch | utils/html_parser.py:35-46 | the first row that records a label wins: its value is stored and the label is gone |
| HtmlParser.ScanWithoutRecord | utils/html_parser.py:36-41 | rows that do not record a label leave it searchable and its field unchanged |
| HtmlParser.OtherRowKeepsField | utils/html_parser.py:36-41 | one non-recording row keeps the label searchable and its field unchanged |
| HtmlParser.LaterRowKeepsField | utils/html_parser.py:145-146 | once consumed, a label's field is never overwritten |
| HtmlParser.ScanKeepsInjective | utils/html_parser.py:8-32 | distinct labels keep mapping to distinct field names |
| HtmlParser.SearchValuesInjective | utils/html_parser.py:8-17 | the eight labels map to eight distinct field names |
| HtmlParser.MetroColor | utils/html_parser.py:60-69 | no colour without ':'; otherwise the stripped second ':' piece |
| HtmlParser.MetroColorOfThree | utils/html_parser.py:64-68 | "a:b:c" gives b stripped |
| HtmlParser.CleanedWordsOfWords | utils/html_parser.py:80-81 | the strip-and-drop-empty filter keeps whitespace tokens unchanged |
| HtmlParser.DistanceOfLastTwo | utils/html_parser.py:80-83 | the distance text is the last two tokens joined by a blank |
| HtmlParser.MetroDistance | utils/html_parser.py:71-86 | defines the distance field: the conversion of the span's distance text, None when that does not convert; MetroDistanceOfMeasure states its value |
| HtmlParser.DistanceOfTrailingMeasure | utils/html_parser.py:79-83 | text whose last two words are "amount" and "unit" yields exactly "amount unit", whatever comes before |
| HtmlParser.MetroDistanceOfMeasure | utils/html_parser.py:79-86 | a span ending in "n unit" with a known unit stores n times that unit's factor |
| HtmlParser.WithDistance | utils/html_parser.py:71-86 | no distance span leaves the result alone; otherwise only metro_distance is set |
| HtmlParser.WithColor | utils/html_parser.py:52-69 | with a styled icon whose style has a colon, metro_color is set to the stripped text after the first colon and nothing else changes; otherwise the dictionary is unchanged |
| HtmlParser.LabelUpdate | utils/html_parser.py:48-86 | the three metro steps once the label is found: AttributeError exactly when the label has no next sibling; otherwise metro_station is the sibling's stripped text, metro_distance and metro_color are set when their sources exist and kept otherwise, and no other key changes |
| HtmlParser.MetroUpdate | utils/html_parser.py:109-133 | only the three metro keys can change; a missing block, row or label changes nothing; once the label exists, AttributeError is raised exactly when it has no next sibling; otherwise metro_station is the sibling's stripped text, metro_distance is set from the distance span when there is one and kept otherwise, and metro_color is the icon's colour when there is one and kept otherwise |
| HtmlParser.ParsePage | utils/html_parser.py:93-96 | defines `parse()`: the table scan, then the metro update; ParsedKeys, ParsedFieldIsFirstRecord and DistanceStoredWithSpan state its result |
| HtmlParser.ParsedKeys | utils/html_parser.py:8-17 | result keys lie within the mapped names and the three metro keys |
| HtmlParser.NoMetroBlockNoMetroKeys | utils/html_parser.py:109-129 | without the metro block, row or label no metro key is set |
| HtmlParser.MetroKeysNotMapped | utils/html_parser.py:8-17 | the metro keys are not mapped names |
| HtmlParser.DistanceStoredWithSpan | utils/html_parser.py:71-86 | with a distance span the page's metro_distance is its conversion, possibly None |
| HtmlParser.ParsedFieldIsFirstRecord | utils/html_parser.py:93-107 | each labelled field of the page is the stripped value of the first row recording that label |
| HtmlParser.PageParser.constructor | utils/html_parser.py:30-33 | a fresh parser starts from a copy of the eight labels and an empty result |
| HtmlParser.PageParser.GetValue | utils/html_parser.py:35-46 | without a value nothing changes; otherwise the value is stored and the label popped |
| HtmlParser.PageParser.ParseRow | utils/html_parser.py:135-146 | the new state is one scan step of the old |
| HtmlParser.PageParser.ParseTables | utils/html_parser.py:98-107 | the new state is the scan of all rows in order |
| HtmlParser.PageParser.GetMetroDistance | utils/html_parser.py:71-86 | the result gains the converted distance when the span exists |
| HtmlParser.PageParser.GetMetroName | utils/html_parser.py:48-50 | stores the stripped station name; raises AttributeError when the sibling is missing |
| HtmlParser.PageParser.GetMetroColor | utils/html_parser.py:52-69 | the result gains the colour as MetroColor says |
| HtmlParser.PageParser.ParseMetro | utils/html_parser.py:109-133 | the result is the metro update of the old result, error for error |
| HtmlParser.PageParser.Parse | utils/html_parser.py:93-96 | the returned dictionary is the page's specification |
| FilterModels.Convert | models/filter_models.py:79-108 | no value raises IndexError; "true" maps to True before any other branch; "false" always raises; other entries are kept |
| FilterModels.ConvertAll | models/filter_models.py:78-108 | defines the translation loop as an in-order fold of Convert that stops at the first error; FalseAlwaysRaises, StopsAtError, ErrorIsFinal and ConvertedKeys state its result |
| FilterModels.ParseQuery | models/filter_models.py:78-108 | the loop computes the in-order fold of the conversions |
| FilterModels.FalseAlwaysRaises | models/filter_models.py:83-85 | any "false" value anywhere in the query makes the translation raise |
| FilterModels.StopsAtError | models/filter_models.py:79-108 | the first failing key decides the error |
| FilterModels.ErrorIsFinal | models/filter_models.py:79-108 | later keys do not change an error |
| FilterModels.SingleFieldKeepsFirst | models/filter_models.py:87-88 | single-valued keys keep their first value |
| FilterModels.NoSingleFieldIsBound | utils/utils.py:24-30 | no single-valued key ends in .min or .max |
| FilterModels.BoundKeyOf | models/filter_models.py:90-94 | "base.min" and "base.max" are stored under base, with key "min" or "max" |
| FilterModels.BoundsMerge | models/filter_models.py:90-94 | base.min then base.max merge into one dictionary |
| FilterModels.BoundOnNonDictRaises | models/filter_models.py:92-94 | a bound on a base already holding a non-dictionary raises TypeError |
| FilterModels.RangeKeyNeedsTwo | models/filter_models.py:96-105 | range keys need two values (IndexError otherwise) and become Range(first, second) |
| FilterModels.OtherKeyKeepsList | models/filter_models.py:107-108 | any other key keeps its whole value list |
| FilterModels.PriceIsRange | models/filter_models.py:96-100 | every key starting with "price" is a range key |
| FilterModels.ConvertedKeys | models/filter_models.py:79-108 | every output key is a query key or the base of a bound key |
| FilterModels.FilterParams.constructor | models/filter_models.py:21-22 | page number and page size default to 1 |
| Parser.CeilDiv | parser.py:121 | the page count k satisfies 10(k-1) < n <= 10k |
| Parser.Pages | parser.py:69 | the pages crawled, in increasing order |
| Parser.EndPage | parser.py:119-122 | defines `_get_end_page_number` once the total is known: ceil(n/10) + 1; CrawledPagesCoverTotal states what it covers |
| Parser.CrawledPagesCoverTotal | parser.py:119-122 | with n results exactly ceil(n/10) pages are crawled and they cover the n results; none when n <= 0 |
| Parser.RegionFiltered | parser.py:110-117 | defines the loop of `clear_tenders`: listings outside the Moscow region in order, AttributeError at the first listing without an address; RegionFilteredFails and RegionFilteredKeeps state its result |
| Parser.ClearTendersSpec | parser.py:105-117 | defines `clear_tenders`: no `tenders` gives [], otherwise the region filter |
| Parser.RegionFilteredFails | parser.py:112-114 | the filter raises AttributeError exactly when some listing has no address |
| Parser.RegionFilteredKeeps | parser.py:106-117 | the kept listings are an in-order subsequence, none in the region, and every listing outside it is kept |
| Parser.Flatten | parser.py:96-103 | defines the loop of `clear_entities`: the entities' clean-ups concatenated in order, the first error stopping it; FlattenOutsideRegion states its result |
| Parser.ClearEntitiesSpec | parser.py:92-103 | defines `clear_entities`: no `entities` gives [], otherwise Flatten |
| Parser.FlattenOutsideRegion | parser.py:92-103 | nothing of the region survives the page clean-up |
| Parser.CrawlFrom | parser.py:69-72 | defines the first loop of `run`: pages p to end - 1 fetched in order, each cleaned, the results concatenated, the first error raised; CrawlOutsideRegion and CrawlStep state its properties |
| Parser.CrawlStep | parser.py:69-72 | one loop iteration moves a fetched and cleaned page's listings from the rest of the crawl onto what is already collected, without changing the overall result |
| Parser.TotalOf | parser.py:119-120 | defines the `totalCount` read of the discovery fetch of page 1; RunOutputFromCrawl and Parser.Parser.Run state what follows from it |
| Parser.CrawlOutsideRegion | parser.py:69-72 | nothing of the region survives the whole crawl |
| Parser.FindDepositValue | parser.py:144-159 | only the deposit label with a string value gives a number; ValueError when the digits do not parse |
| Parser.DepositOnlyFromLabel | parser.py:144-159 | a successful read gives a number exactly for the deposit label with a string value |
| Parser.DepositOfDigitGroups | parser.py:154-157 | any non-empty run of digit groups separated by single blanks, with or without ",tail" after it ("150 000", "150000,00", "1 500 000,00"), gives the groups run together as one number |
| Parser.FirstTruthy | parser.py:136-141 | over the entries' reads in order, the first that raises or is truthy decides; a returned deposit is non-zero and is one of the reads |
| Parser.FirstDeposit | parser.py:136-141 | a returned deposit is non-zero and comes from some entry |
| Parser.FirstDepositIsFirst | parser.py:136-141 | when every earlier entry is falsy (no deposit or 0) and entry i gives a non-zero n, the result is n |
| Parser.FirstDepositRaises | parser.py:137-138 | an entry that raises before any truthy deposit makes the loop raise ValueError |
| Parser.FirstDepositNone | parser.py:136-141 | when no entry raises and none is truthy, the result is None |
| Parser.ZeroDepositSkipped | parser.py:139-140 | a zero or missing deposit is passed over |
| Parser.DepositOf | parser.py:131-141 | defines `get_deposit`: a missing or empty procedure info gives None, otherwise FirstDeposit of the entries |
| Parser.UrlByAddress | parser.py:161-168 | only a non-empty url is returned |
| Parser.FlatInfoForUrl | parser.py:195-206 | the record's flatinfo_url is the URL it was read from; a missing URL always fails, because `get_page_flatinfo(None)` reaches `requests.get(None)`, which raises |
| Parser.FlatInfoForAddress | parser.py:185-193 | defines `get_flatinfo` without caches: the URL lookup, then the page read of that URL |
| Parser.ConstructTenderSpec | parser.py:170-183 | defines `construct_tender` without caches: parse, detail, deposit, flat info, build, and None as soon as one step raises |
| Parser.NoUrlNoTender | parser.py:161-183 | a listing whose address lookup gives no URL never yields a tender |
| Parser.ConstructedHasUrl | parser.py:195-204 | every constructed tender carries a non-empty flatinfo_url |
| Parser.AddressCacheStore | parser.py:189-191 | caching the uncached result under an address keeps the address cache in agreement |
| Parser.UrlCacheStore | parser.py:199-204 | caching the uncached result under a URL keeps the URL cache in agreement |
| Parser.Constructed | parser.py:74-78 | the output has at most as many tenders as crawled listings |
| Parser.ConstructedFrom | parser.py:74-78 | each output tender is the construction of some crawled listing |
| Parser.ConstructedConcat | parser.py:74-78 | constructing a concatenation gives the two outputs concatenated: a listing's outcome never affects another's, and crawl order is kept |
| Parser.ConstructedKeeps | parser.py:74-78 | every crawled listing that constructs has its tender in the output |
| Parser.ConstructedSkips | parser.py:74-78 | a listing that fails drops out and leaves the outputs before and after it as they were |
| Parser.ConstructedAllSucceed | parser.py:74-78 | when every listing constructs, the output is their tenders one for one, in crawl order |
| Parser.ConstructedAddressIsClean | parser.py:172-180 | a constructed tender's address is its cleaned full address |
| Parser.RunSpec | parser.py:60-80 | defines `run` without caches: the discovery fetch and `totalCount`, the crawl, then the construction; RunOutputFromCrawl states its result |
| Parser.RunOutputFromCrawl | parser.py:66-80 | a successful run returns at most one tender per kept listing, each built from one of them, none of the region; every kept listing that constructs has its tender in the output, and when all construct the output is exactly their tenders in crawl order |
| Parser.Parser.constructor | parser.py:55-58 | no params, empty caches, no calls made |
| Parser.Parser.GetPageData | parser.py:82-90 | page_number is set before exactly one search call, and nothing else in the filter changes |
| Parser.Parser.ClearTenders | parser.py:105-117 | returns the region filter of the entity's tenders, [] without tenders |
| Parser.Parser.ClearEntities | parser.py:92-103 | returns the in-order concatenation over the entities, [] without entities |
| Parser.Parser.GetDeposit | parser.py:131-141 | returns the first truthy deposit, None without procedure info |
| Parser.Parser.GetUrlByAddress | parser.py:161-168 | one lookup call; the url when truthy |
| Parser.Parser.GetFlatinfoByUrl | parser.py:195-206 | a cached URL makes no page fetch; a miss makes one page call, fails for a missing URL, and caches only a success, with flatinfo_url set |
| Parser.Parser.GetFlatinfo | parser.py:185-193 | a cached address makes no lookup and no page fetch; a miss makes exactly one lookup and at most one page fetch, and caches only a success |
| Parser.Parser.ConstructTender | parser.py:170-183 | None when any step raises, otherwise the built tender; at most one call of each kind; a listing whose clean address is cached makes no lookup and no page fetch; a built tender leaves its address cached, and no cache entry is lost |
| Parser.Parser.Crawl | parser.py:69-72 | requests pages 1 to end-1 in order and concatenates their clean-ups |
| Parser.Parser.ConstructAll | parser.py:74-78 | keeps the non-None constructions in crawl order |
| Parser.Parser.Run | parser.py:60-80 | page size 10; the result is the uncached specification; caches stay coherent; an Ok run requested page 1 and then pages 1 to ceil(n/10) |

## Left out

- HTTP layer (utils/utils.py:33-46, parser.py:10-49): `get_url`, the `HTTPMethod`/`DecodeTo` enums and the four request methods are the `Upstream` oracle. Transport, status and decoding failures are one `FetchFailed`-style error chosen by the oracle. The request bodies (`tenderId`, `term`) are the oracle's arguments.
- BeautifulSoup: a page is given already as rows of an optional label text and an optional value text, plus an optional metro block. `find`/`next_sibling` navigation and `.text` extraction are not modelled.
- `urlparse`/`parse_qs`: the query is given as the list of (key, values) pairs. `FilterParams.parse_obj` of the converted dictionary is the `FilterParams` constructor, without schema validation.
- pydantic coercion: raw fields arrive already in their declared types, with None for a missing key. Coercing strings to numbers, `snake_to_camel` aliasing, `exclude_none` and `Tender.construct` are not modelled. In a FlatInfo page a float in a text field is a validation error, and a text is parsed with `int` for an int field.
- Floats: `convert_to_meters` accepts only digit strings. Python `float()` also takes signs, exponents, `inf` and `nan`, and those are not modelled. Values are exact reals, so the 0.01 factor has no rounding.
- Parser.CeilDiv: takes `ceil(n / 10)` over exact integers, not float division. The two differ only for totals beyond 2^53.
- Strings.PythonInt: accepts ASCII digits only. Unicode digits and `_` separators are left out.
- Strings.Lower: maps ASCII and basic Cyrillic letters only.
- Datetimes are integer seconds, so the +3 h shift is +10800.
- Values of non-string type for `address`, a deposit `label` or `value`, or a lookup `url` are folded into "missing".
- Parser.RunSpec: a `totalCount` that is present but null makes the source raise TypeError in `ceil(None / 10)` (parser.py:120-121). The model folds it into "missing" and gives KeyError("totalCount"), so only the kind of exception differs.
- The `Upstream` oracle is a record of pure functions, so the same request always gets the same answer. The source's caches (parser.py:185-206) make a later listing reuse an earlier answer even when the service would now answer differently. The model cannot show that difference: in it a cache hit and a fresh call always agree.
- Aliasing: cached FlatInfo records are immutable values, so two tenders sharing one cached Python object are not modelled.
- Parser.Parser.Run: clearing both caches at its start shows up only as having no cache precondition. The final contents of the caches are not stated.
- main.py, logger.py and models/create_filter_models.py are not part of this model. They are the entry point, the log set-up, and a schema generator that makes a network fetch.
