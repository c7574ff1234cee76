/** utils/html_parser.py: extraction of the labelled facts and of the
    nearest metro station from an address-lookup page. The document is
    abstracted into what the traversal looks at: the list rows (each with
    the text of its label span and of its value span, when present) and the
    first row of the underground block. */
module HtmlParser {
  import opened Common
  import opened Strings
  import opened Utils

  /** Page label -> field name of the scraped record. */
  const SEARCH_VALUES: map<string, string> := map[
    "Год постройки" := "building_year",
    "Округ" := "district",
    "Район" := "region",
    "Нас. пункт" := "city",
    "Расселение по реновации" := "renovation",
    "Высота потолков" := "ceiling_height_str",
    "Перекрытия" := "floors_type",
    "Стены" := "walls_type"]

  const METRO_STATION: string := "metro_station"
  const METRO_DISTANCE: string := "metro_distance"
  const METRO_COLOR: string := "metro_color"

  /** One `li.fi-list-item`: the raw text of its label span and of its
      value span, None where the span is absent. */
  datatype Row = Row(caption: Option<string>, value: Option<string>)

  /** The `svg` inside the metro label; `style` is None when the attribute
      is missing or not a string. */
  datatype Svg = Svg(style: Option<string>)

  /** The `span.metro-label`: the text of its next sibling (None when there
      is no sibling) and its `svg`, if any. */
  datatype MetroLabel = MetroLabel(siblingText: Option<string>, svg: Option<Svg>)

  /** The first `li.fi-list-item` of the underground list. */
  datatype MetroItem = MetroItem(metroLabel: Option<MetroLabel>, distanceText: Option<string>)

  /** The `ul.underground` block, with its first row if it has one. */
  datatype Underground = Underground(item: Option<MetroItem>)

  datatype Page = Page(rows: seq<Row>, underground: Option<Underground>)

  /** The two dictionaries a parser works on. */
  datatype Tables = Tables(search: map<string, string>, result: map<string, Field>)

  const INITIAL: Tables := Tables(SEARCH_VALUES, map[])

  // ---------------------------------------------------------------------
  // Specification of the row scan

  /** A row that records `label`: its stripped label text is `label` and it
      has a value span. */
  predicate Records(row: Row, caption: string) {
    row.caption.Some? && Strip(row.caption.value) == caption && row.value.Some?
  }

  /** `parse_row` (with `get_value`) on the two dictionaries. */
  function ScanRow(st: Tables, row: Row): (r: Tables)
    ensures row.caption.None? || row.value.None? ==> r == st
    ensures row.caption.Some? && Strip(row.caption.value) !in st.search ==> r == st
    ensures forall l | l in st.search && Records(row, l) ::
      r == Tables(st.search - {l}, st.result[st.search[l] := Text(Strip(row.value.value))])
  {
    if row.caption.None? then st
    else
      var caption := Strip(row.caption.value);
      if caption !in st.search then st
      else if row.value.None? then st
      else Tables(st.search - {caption}, st.result[st.search[caption] := Text(Strip(row.value.value))])
  }

  /** The dictionaries after `parse_row` has run on every row in order. */
  function ScanRows(st: Tables, rows: seq<Row>): Tables
    decreases |rows|
  {
    if rows == [] then st
    else ScanRow(ScanRows(st, rows[..|rows| - 1]), rows[|rows| - 1])
  }

  /** Distinct labels map to distinct field names. */
  predicate Injective(m: map<string, string>) {
    forall a, b | a in m && b in m && a != b :: m[a] != m[b]
  }

  /** The row scan only removes labels, so each remaining label keeps its field name. */
  predicate Shrinks(small: map<string, string>, big: map<string, string>) {
    forall l | l in small :: l in big && small[l] == big[l]
  }

  lemma SearchValuesInjective()
    ensures Injective(SEARCH_VALUES)
  {
  }

  lemma {:induction false} ScanShrinks(st: Tables, rows: seq<Row>)
    ensures Shrinks(ScanRows(st, rows).search, st.search)
    ensures ScanRows(st, rows).result.Keys <= st.result.Keys + st.search.Values
    decreases |rows|
  {
    if rows != [] {
      ScanShrinks(st, rows[..|rows| - 1]);
    }
  }

  /** Index `i` is the first row recording `label`. */
  predicate FirstRecord(rows: seq<Row>, caption: string, i: nat) {
    i < |rows| && Records(rows[i], caption) && forall j | 0 <= j < i :: !Records(rows[j], caption)
  }

  /** First match wins: the first row that records `caption` sets its
      field and consumes the label, and no later row changes that field. */
  lemma {:induction false} ScanFirstMatch(st: Tables, rows: seq<Row>, caption: string, i: nat)
    requires caption in st.search && Injective(st.search)
    requires FirstRecord(rows, caption, i)
    ensures caption !in ScanRows(st, rows).search
    ensures st.search[caption] in ScanRows(st, rows).result
    ensures ScanRows(st, rows).result[st.search[caption]] == Text(Strip(rows[i].value.value))
    decreases |rows|
  {
    var n := |rows| - 1;
    if i < n {
      var prefix := rows[..n];
      FirstRecordOfPrefix(rows, caption, i);
      ScanFirstMatch(st, prefix, caption, i);
      RecordKeptByLastRow(st, prefix, rows[n], caption, rows[i].value.value);
      assert ScanRows(st, rows) == ScanRow(ScanRows(st, prefix), rows[n]);
    } else {
      FirstRecordIsLast(st, rows, caption, i);
    }
  }

  /** A first record before the last row is also the first record of the
      rows without the last one. */
  lemma FirstRecordOfPrefix(rows: seq<Row>, caption: string, i: nat)
    requires FirstRecord(rows, caption, i) && i < |rows| - 1
    ensures FirstRecord(rows[..|rows| - 1], caption, i)
    ensures rows[..|rows| - 1][i] == rows[i]
  {
    var prefix := rows[..|rows| - 1];
    assert forall j | 0 <= j <= i :: prefix[j] == rows[j];
  }

  /** The base case of the first match: no earlier row records `caption`
      and the last one does. */
  lemma FirstRecordIsLast(st: Tables, rows: seq<Row>, caption: string, n: nat)
    requires caption in st.search && Injective(st.search)
    requires FirstRecord(rows, caption, n) && n >= |rows| - 1
    ensures caption !in ScanRows(st, rows).search
    ensures st.search[caption] in ScanRows(st, rows).result
    ensures ScanRows(st, rows).result[st.search[caption]] == Text(Strip(rows[n].value.value))
  {
    var prefix := rows[..n];
    assert forall j | 0 <= j < n :: !Records(prefix[j], caption) by {
      forall j | 0 <= j < n
        ensures !Records(prefix[j], caption)
      {
        assert prefix[j] == rows[j];
      }
    }
    ScanWithoutRecord(st, prefix, caption);
    assert ScanRows(st, rows) == ScanRow(ScanRows(st, prefix), rows[n]);
    RecordedByLastRow(ScanRows(st, prefix), rows[n], caption, st.search[caption]);
  }

  lemma RecordedByLastRow(mid: Tables, row: Row, caption: string, key: string)
    requires caption in mid.search && mid.search[caption] == key && Records(row, caption)
    ensures caption !in ScanRow(mid, row).search
    ensures key in ScanRow(mid, row).result && ScanRow(mid, row).result[key] == Text(Strip(row.value.value))
  {
  }

  lemma RecordKeptByLastRow(st: Tables, prefix: seq<Row>, row: Row, caption: string, v: string)
    requires caption in st.search && Injective(st.search)
    requires caption !in ScanRows(st, prefix).search
    requires st.search[caption] in ScanRows(st, prefix).result
    requires ScanRows(st, prefix).result[st.search[caption]] == Text(Strip(v))
    ensures caption !in ScanRow(ScanRows(st, prefix), row).search
    ensures st.search[caption] in ScanRow(ScanRows(st, prefix), row).result
    ensures ScanRow(ScanRows(st, prefix), row).result[st.search[caption]] == Text(Strip(v))
  {
    var mid := ScanRows(st, prefix);
    var key := st.search[caption];
    ScanShrinks(st, prefix);
    forall l | l in mid.search
      ensures mid.search[l] != key
    {
      assert l in st.search && mid.search[l] == st.search[l] && l != caption;
    }
    LaterRowKeepsField(mid, row, caption, key);
  }

  /** With no row recording `caption`, the label stays and its field keeps
      whatever it had: a row with the label but no value span consumes nothing. */
  lemma {:induction false} ScanWithoutRecord(st: Tables, rows: seq<Row>, caption: string)
    requires caption in st.search && Injective(st.search)
    requires forall i | 0 <= i < |rows| :: !Records(rows[i], caption)
    ensures caption in ScanRows(st, rows).search
    ensures ScanRows(st, rows).search[caption] == st.search[caption]
    ensures st.search[caption] in ScanRows(st, rows).result <==> st.search[caption] in st.result
    ensures st.search[caption] in st.result ==>
      ScanRows(st, rows).result[st.search[caption]] == st.result[st.search[caption]]
    decreases |rows|
  {
    if rows != [] {
      var n := |rows| - 1;
      var prefix := rows[..n];
      assert forall j | 0 <= j < n :: prefix[j] == rows[j];
      ScanWithoutRecord(st, prefix, caption);
      ScanKeepsInjective(st, prefix);
      OtherRowKeepsField(ScanRows(st, prefix), rows[n], caption, st.search[caption]);
    }
  }

  /** A consumed label's field is left alone by any later row. */
  lemma LaterRowKeepsField(st: Tables, row: Row, caption: string, key: string)
    requires caption !in st.search && key in st.result
    requires forall l | l in st.search :: st.search[l] != key
    ensures caption !in ScanRow(st, row).search
    ensures key in ScanRow(st, row).result && ScanRow(st, row).result[key] == st.result[key]
  {
  }

  /** A row that does not record a label that is still wanted leaves both
      the label and its field as they were. */
  lemma OtherRowKeepsField(st: Tables, row: Row, caption: string, key: string)
    requires caption in st.search && st.search[caption] == key && Injective(st.search)
    requires !Records(row, caption)
    ensures caption in ScanRow(st, row).search && ScanRow(st, row).search[caption] == key
    ensures key in ScanRow(st, row).result <==> key in st.result
    ensures key in st.result ==> ScanRow(st, row).result[key] == st.result[key]
  {
    if row.caption.Some? && row.value.Some? && Strip(row.caption.value) in st.search {
      var other := Strip(row.caption.value);
      assert other != caption;
      assert st.search[other] != key;
      assert ScanRow(st, row) == Tables(st.search - {other}, st.result[st.search[other] := Text(Strip(row.value.value))]);
    } else {
      assert ScanRow(st, row) == st;
    }
  }

  lemma {:induction false} ScanKeepsInjective(st: Tables, rows: seq<Row>)
    requires Injective(st.search)
    ensures Injective(ScanRows(st, rows).search)
  {
    ScanShrinks(st, rows);
  }

  // ---------------------------------------------------------------------
  // Specification of the metro block

  /** `get_metro_color` on the style text: the second ':'-piece, stripped,
      when there are at least two pieces. */
  function MetroColor(style: string): (r: Option<string>)
    ensures r.None? <==> ':' !in style
    ensures r.Some? ==> |Split(style, ':')| >= 2 && r == Some(Strip(Split(style, ':')[1]))
  {
    var pieces := Split(style, ':');
    if |pieces| < 2 then
      SplitNoColonBack(style);
      None
    else
      SplitWithColon(style);
      Some(Strip(pieces[1]))
  }

  lemma SplitNoColonBack(s: string)
    requires |Split(s, ':')| < 2
    ensures ':' !in s
  {
    JoinSplit(s, ':');
  }

  lemma SplitWithColon(s: string)
    requires |Split(s, ':')| >= 2
    ensures ':' in s
  {
    if ':' !in s {
      SplitNoSeparator(s, ':');
    }
  }

  /** "a:b:c" gives "b". */
  lemma MetroColorOfThree(a: string, b: string, c: string)
    requires ':' !in a && ':' !in b
    ensures MetroColor(a + ":" + b + ":" + c) == Some(Strip(b))
  {
    SplitAtSeparator(a, b + ":" + c, ':');
    SplitAtSeparator(b, c, ':');
    assert a + ":" + b + ":" + c == a + [':'] + (b + [':'] + c);
    assert b + ":" + c == b + [':'] + c;
  }

  /** The list comprehension of `get_metro_distance`: the stripped words
      that are not empty. */
  function CleanedWords(words: seq<string>): (r: seq<string>)
    ensures |r| <= |words|
  {
    if words == [] then []
    else (if Strip(words[0]) != "" then [Strip(words[0])] else []) + CleanedWords(words[1..])
  }

  /** The words of `split()` are already clean, so the comprehension keeps them all. */
  lemma {:induction false} CleanedWordsOfWords(words: seq<string>)
    requires forall k | 0 <= k < |words| :: |words[k]| > 0 && NoSpace(words[k])
    ensures CleanedWords(words) == words
  {
    if words != [] {
      var w := words[0];
      assert IsStripped(w) by { assert !IsSpace(w[0]) && !IsSpace(w[|w| - 1]); }
      StripStripped(w);
      CleanedWordsOfWords(words[1..]);
      assert [w] + words[1..] == words;
    }
  }

  /** `xs[-2:]`. */
  function LastTwo<T>(xs: seq<T>): seq<T> {
    if |xs| <= 2 then xs else xs[|xs| - 2..]
  }

  /** The text handed to `convert_to_meters`, from the words of the span. */
  function DistanceOfWords(words: seq<string>): string {
    Join(LastTwo(CleanedWords(words)), " ")
  }

  function DistanceText(text: string): string {
    DistanceOfWords(Words(text))
  }

  /** With two or more words, the distance text is the last two words
      separated by one blank. */
  lemma DistanceOfLastTwo(ws: seq<string>)
    requires |ws| >= 2
    requires forall k | 0 <= k < |ws| :: |ws[k]| > 0 && NoSpace(ws[k])
    ensures DistanceOfWords(ws) == ws[|ws| - 2] + " " + ws[|ws| - 1]
  {
    CleanedWordsOfWords(ws);
    var t := LastTwo(ws);
    assert t == [ws[|ws| - 2], ws[|ws| - 1]];
    assert Join(t, " ") == t[0] + " " + Join(t[1..], " ");
  }

  /** A span whose text ends in the words "<amount>" and "<unit>" hands
      exactly "<amount> <unit>" to the converter, whatever words come before. */
  lemma {:induction false} DistanceOfTrailingMeasure(text: string, amount: string, unit: string)
    requires |Words(text)| >= 2
    requires Words(text)[|Words(text)| - 2] == amount
    requires Words(text)[|Words(text)| - 1] == unit
    ensures DistanceText(text) == amount + " " + unit
  {
    LastTwoWordsJoined(Words(text), amount, unit);
  }

  lemma LastTwoWordsJoined(ws: seq<string>, a: string, b: string)
    requires |ws| >= 2 && ws[|ws| - 2] == a && ws[|ws| - 1] == b
    requires forall k | 0 <= k < |ws| :: |ws[k]| > 0 && NoSpace(ws[k])
    ensures DistanceOfWords(ws) == a + " " + b
  {
    DistanceOfLastTwo(ws);
  }

  /** The value `get_metro_distance` stores for the distance span's text:
      the converted distance, or None when the conversion fails. */
  function MetroDistance(text: string): Field {
    match ConvertToMeters(DistanceText(text))
    case None => Null
    case Some(m) => Number(m)
  }

  /** A span ending in "<n> <unit>" for a known unit stores n times the
      unit's factor, whatever words come before. */
  lemma MetroDistanceOfMeasure(text: string, n: nat, unit: string)
    requires unit in CONVERSION_FACTORS
    requires |Words(text)| >= 2
    requires Words(text)[|Words(text)| - 2] == DecimalString(n)
    requires Words(text)[|Words(text)| - 1] == unit
    ensures MetroDistance(text) == Number(n as real * CONVERSION_FACTORS[unit])
  {
    DistanceOfTrailingMeasure(text, DecimalString(n), unit);
    ConvertToMetersRoundTrip(n, unit);
  }

  /** Storing an optional value under one key: nothing happens for None,
      and every other key keeps its value. */
  function Store(m: map<string, Field>, key: string, v: Option<Field>): map<string, Field> {
    if v.Some? then m[key := v.value] else m
  }

  lemma StoreKeepsOthers(m: map<string, Field>, key: string, v: Option<Field>)
    ensures v.Some? ==> key in Store(m, key, v) && Store(m, key, v)[key] == v.value
    ensures Store(m, key, v).Keys <= m.Keys + {key}
    ensures forall k | k in m && k != key :: k in Store(m, key, v) && Store(m, key, v)[k] == m[k]
  {
  }

  /** The value `get_metro_distance` stores, if the distance span exists. */
  function DistanceField(item: MetroItem): Option<Field> {
    if item.distanceText.Some? then Some(MetroDistance(item.distanceText.value)) else None
  }

  /** `get_metro_distance` on the result dictionary. */
  function WithDistance(result: map<string, Field>, item: MetroItem): (r: map<string, Field>)
    ensures item.distanceText.Some? ==> r == result[METRO_DISTANCE := MetroDistance(item.distanceText.value)]
    ensures item.distanceText.None? ==> r == result
  {
    Store(result, METRO_DISTANCE, DistanceField(item))
  }

  /** The colour `get_metro_color` stores, if the label has a styled icon
      whose style has a colon. */
  function ColorField(metro: MetroLabel): Option<Field> {
    if metro.svg.None? || metro.svg.value.style.None? then None
    else match MetroColor(metro.svg.value.style.value)
      case None => None
      case Some(c) => Some(Text(c))
  }

  /** `get_metro_color` on the result dictionary. */
  function WithColor(result: map<string, Field>, metro: MetroLabel): (r: map<string, Field>)
    ensures r.Keys <= result.Keys + {METRO_COLOR}
    ensures forall k | k in result && k != METRO_COLOR :: k in r && r[k] == result[k]
    ensures ColorField(metro).Some? ==> r == result[METRO_COLOR := ColorField(metro).value]
    ensures ColorField(metro).None? ==> r == result
  {
    StoreKeepsOthers(result, METRO_COLOR, ColorField(metro));
    Store(result, METRO_COLOR, ColorField(metro))
  }

  /** `parse_metro` on the result dictionary; an AttributeError when the
      metro label has no next sibling. */
  function MetroUpdate(result: map<string, Field>, u: Option<Underground>): (r: Result<map<string, Field>>)
    ensures r.Ok? ==> r.value.Keys <= result.Keys + {METRO_STATION, METRO_DISTANCE, METRO_COLOR}
    ensures r.Ok? ==> forall k | k in result && k !in {METRO_STATION, METRO_DISTANCE, METRO_COLOR} ::
      k in r.value && r.value[k] == result[k]
    ensures u.None? || u.value.item.None? || u.value.item.value.metroLabel.None? ==> r == Ok(result)
    ensures r.Err? ==> r.error == AttributeError
    ensures (r.Ok? && u.Some? && u.value.item.Some? && u.value.item.value.metroLabel.Some?
      && u.value.item.value.distanceText.Some?) ==>
      (METRO_DISTANCE in r.value && r.value[METRO_DISTANCE] == MetroDistance(u.value.item.value.distanceText.value))
    ensures (u.Some? && u.value.item.Some? && u.value.item.value.metroLabel.Some?) ==>
      (r.Err? <==> u.value.item.value.metroLabel.value.siblingText.None?)
    ensures (r.Ok? && u.Some? && u.value.item.Some? && u.value.item.value.metroLabel.Some?) ==>
      var metro := u.value.item.value.metroLabel.value;
      metro.siblingText.Some? && METRO_STATION in r.value
      && r.value[METRO_STATION] == Text(Strip(metro.siblingText.value))
    ensures (r.Ok? && u.Some? && u.value.item.Some? && u.value.item.value.metroLabel.Some?) ==>
      var metro := u.value.item.value.metroLabel.value;
      if ColorField(metro).Some? then METRO_COLOR in r.value && r.value[METRO_COLOR] == ColorField(metro).value
      else ((METRO_COLOR in r.value <==> METRO_COLOR in result)
        && (METRO_COLOR in result ==> r.value[METRO_COLOR] == result[METRO_COLOR]))
    ensures (r.Ok? && u.Some? && u.value.item.Some? && u.value.item.value.distanceText.None?) ==>
      (METRO_DISTANCE in r.value <==> METRO_DISTANCE in result)
      && (METRO_DISTANCE in result ==> r.value[METRO_DISTANCE] == result[METRO_DISTANCE])
  {
    if u.None? || u.value.item.None? || u.value.item.value.metroLabel.None? then Ok(result)
    else
      var item := u.value.item.value;
      LabelUpdate(result, item, item.metroLabel.value)
  }

  /** The three metro steps once the label `metro` of the row `item` is found. */
  function LabelUpdate(result: map<string, Field>, item: MetroItem, metro: MetroLabel): (r: Result<map<string, Field>>)
    ensures r.Err? <==> metro.siblingText.None?
    ensures r.Err? ==> r.error == AttributeError
    ensures r.Ok? ==> r.value.Keys <= result.Keys + {METRO_STATION, METRO_DISTANCE, METRO_COLOR}
    ensures r.Ok? ==> forall k | k in result && k !in {METRO_STATION, METRO_DISTANCE, METRO_COLOR} ::
      k in r.value && r.value[k] == result[k]
    ensures r.Ok? ==> METRO_STATION in r.value && r.value[METRO_STATION] == Text(Strip(metro.siblingText.value))
    ensures r.Ok? && item.distanceText.Some? ==>
      METRO_DISTANCE in r.value && r.value[METRO_DISTANCE] == MetroDistance(item.distanceText.value)
    ensures r.Ok? && item.distanceText.None? ==>
      (METRO_DISTANCE in r.value <==> METRO_DISTANCE in result)
      && (METRO_DISTANCE in result ==> r.value[METRO_DISTANCE] == result[METRO_DISTANCE])
    ensures r.Ok? && ColorField(metro).Some? ==>
      METRO_COLOR in r.value && r.value[METRO_COLOR] == ColorField(metro).value
    ensures r.Ok? && ColorField(metro).None? ==>
      (METRO_COLOR in r.value <==> METRO_COLOR in result)
      && (METRO_COLOR in result ==> r.value[METRO_COLOR] == result[METRO_COLOR])
  {
    var afterDistance := Store(result, METRO_DISTANCE, DistanceField(item));
    if metro.siblingText.None? then Err(AttributeError)
    else
      var name := Some(Text(Strip(metro.siblingText.value)));
      var afterName := Store(afterDistance, METRO_STATION, name);
      var colored := Store(afterName, METRO_COLOR, ColorField(metro));
      StoreKeepsOthers(result, METRO_DISTANCE, DistanceField(item));
      StoreKeepsOthers(afterDistance, METRO_STATION, name);
      StoreKeepsOthers(afterName, METRO_COLOR, ColorField(metro));
      MetroKeysDistinct();
      Ok(colored)
  }

  /** The metro keys are three different names, so setting one leaves the others. */
  lemma MetroKeysDistinct()
    ensures METRO_DISTANCE != METRO_STATION && METRO_DISTANCE != METRO_COLOR
    ensures METRO_STATION != METRO_COLOR
  {
    assert METRO_DISTANCE[6] == 'd' && METRO_STATION[6] == 's' && METRO_COLOR[6] == 'c';
  }

  /** `HtmlParser(html).parse()`. */
  function ParsePage(page: Page): Result<map<string, Field>> {
    MetroUpdate(ScanRows(INITIAL, page.rows).result, page.underground)
  }

  /** The parsed dictionary holds only mapped field names and the three metro keys. */
  lemma ParsedKeys(page: Page)
    requires ParsePage(page).Ok?
    ensures ParsePage(page).value.Keys <= SEARCH_VALUES.Values + {METRO_STATION, METRO_DISTANCE, METRO_COLOR}
  {
    ScanShrinks(INITIAL, page.rows);
  }

  /** Without the underground list, its first row or its label, no metro key is set. */
  lemma NoMetroBlockNoMetroKeys(page: Page)
    requires page.underground.None? || page.underground.value.item.None?
      || page.underground.value.item.value.metroLabel.None?
    ensures ParsePage(page).Ok?
    ensures METRO_STATION !in ParsePage(page).value && METRO_DISTANCE !in ParsePage(page).value
      && METRO_COLOR !in ParsePage(page).value
  {
    ScanShrinks(INITIAL, page.rows);
    MetroKeysNotMapped();
  }

  lemma MetroKeysNotMapped()
    ensures METRO_STATION !in SEARCH_VALUES.Values
    ensures METRO_DISTANCE !in SEARCH_VALUES.Values
    ensures METRO_COLOR !in SEARCH_VALUES.Values
  {
  }

  /** The distance is stored, possibly as None, whenever the distance span exists. */
  lemma DistanceStoredWithSpan(page: Page)
    requires page.underground.Some? && page.underground.value.item.Some?
    requires page.underground.value.item.value.metroLabel.Some?
    requires page.underground.value.item.value.distanceText.Some?
    requires ParsePage(page).Ok?
    ensures METRO_DISTANCE in ParsePage(page).value
    ensures ParsePage(page).value[METRO_DISTANCE] ==
      MetroDistance(page.underground.value.item.value.distanceText.value)
  {
  }

  /** Each mapped field is the stripped value of the first row that records its label. */
  lemma {:induction false} ParsedFieldIsFirstRecord(page: Page, caption: string, i: nat)
    requires caption in SEARCH_VALUES && FirstRecord(page.rows, caption, i)
    requires ParsePage(page).Ok?
    ensures SEARCH_VALUES[caption] in ParsePage(page).value
    ensures ParsePage(page).value[SEARCH_VALUES[caption]] == Text(Strip(page.rows[i].value.value))
  {
    var key := SEARCH_VALUES[caption];
    var scanned := ScanRows(INITIAL, page.rows).result;
    SearchValuesInjective();
    ScanFirstMatch(INITIAL, page.rows, caption, i);
    assert key in scanned && scanned[key] == Text(Strip(page.rows[i].value.value));
    assert key !in {METRO_STATION, METRO_DISTANCE, METRO_COLOR} by {
      assert key in SEARCH_VALUES.Values;
      MetroKeysNotMapped();
    }
    assert ParsePage(page) == MetroUpdate(scanned, page.underground);
  }

  // ---------------------------------------------------------------------
  // The parser object

  class PageParser {
    const page: Page
    var searchDict: map<string, string>
    var resultDict: map<string, Field>

    /** `HtmlParserBase.__init__`: a fresh copy of the label table and an empty result. */
    constructor(page: Page)
      ensures this.page == page
      ensures searchDict == SEARCH_VALUES && resultDict == map[]
    {
      this.page := page;
      searchDict := SEARCH_VALUES;
      resultDict := map[];
    }

    function State(): Tables
      reads this
    {
      Tables(searchDict, resultDict)
    }

    /** `get_value(row, label)`: with a value span, the stripped value is
        stored under the label's field name and the label is removed. */
    method GetValue(row: Row, caption: string)
      requires caption in searchDict
      modifies this
      ensures row.value.None? ==> searchDict == old(searchDict) && resultDict == old(resultDict)
      ensures row.value.Some? ==>
        resultDict == old(resultDict)[old(searchDict)[caption] := Text(Strip(row.value.value))] &&
        searchDict == old(searchDict) - {caption}
    {
      if row.value.None? {
        return;
      }
      var value := Strip(row.value.value);
      var key := searchDict[caption];
      resultDict := resultDict[key := Text(value)];
      searchDict := searchDict - {caption};
    }

    /** `parse_row(row)`. */
    method ParseRow(row: Row)
      modifies this
      ensures State() == ScanRow(old(State()), row)
    {
      if row.caption.None? {
        return;
      }
      var caption := Strip(row.caption.value);
      if caption in searchDict {
        GetValue(row, caption);
      }
    }

    /** `parse_tables()`: every row in document order. */
    method ParseTables()
      modifies this
      ensures State() == ScanRows(old(State()), page.rows)
    {
      var rows := page.rows;
      if rows == [] {
        return;
      }
      var i := 0;
      while i < |rows|
        invariant 0 <= i <= |rows|
        invariant State() == ScanRows(old(State()), rows[..i])
      {
        ParseRow(rows[i]);
        assert rows[..i + 1][..i] == rows[..i];
        i := i + 1;
      }
      assert rows[..|rows|] == rows;
    }

    /** `get_metro_distance(item)`. */
    method GetMetroDistance(item: MetroItem)
      modifies this
      ensures searchDict == old(searchDict)
      ensures resultDict == WithDistance(old(resultDict), item)
    {
      if item.distanceText.None? {
        return;
      }
      // split, keep the clean words, join the last two, convert_to_meters
      var field := MetroDistance(item.distanceText.value);
      assert DistanceField(item) == Some(field);
      resultDict := resultDict[METRO_DISTANCE := field];
    }

    /** `get_metro_name(label)`: AttributeError when the label has no next sibling. */
    method GetMetroName(metro: MetroLabel) returns (r: Result<()>)
      modifies this
      ensures searchDict == old(searchDict)
      ensures metro.siblingText.None? <==> r.Err?
      ensures r.Err? ==> r.error == AttributeError
      ensures r.Ok? ==> resultDict == old(resultDict)[METRO_STATION := Text(Strip(metro.siblingText.value))]
      ensures r.Err? ==> resultDict == old(resultDict)
    {
      if metro.siblingText.None? {
        return Err(AttributeError);
      }
      resultDict := resultDict[METRO_STATION := Text(Strip(metro.siblingText.value))];
      return Ok(());
    }

    /** `get_metro_color(label)`. */
    method GetMetroColor(metro: MetroLabel)
      modifies this
      ensures searchDict == old(searchDict)
      ensures resultDict == WithColor(old(resultDict), metro)
    {
      if metro.svg.None? {
        return;
      }
      var style := metro.svg.value.style;
      if style.None? {
        return;
      }
      var pieces := Split(style.value, ':');
      if |pieces| < 2 {
        assert MetroColor(style.value).None?;
        return;
      }
      var color := Strip(pieces[1]);
      assert ColorField(metro) == Some(Text(color)) by {
        assert MetroColor(style.value) == Some(color);
      }
      resultDict := resultDict[METRO_COLOR := Text(color)];
    }

    /** `parse_metro()`. */
    method ParseMetro() returns (r: Result<()>)
      modifies this
      ensures searchDict == old(searchDict)
      ensures var spec := MetroUpdate(old(resultDict), page.underground);
        (r.Ok? <==> spec.Ok?) && (r.Err? ==> spec == Err(r.error)) && (r.Ok? ==> resultDict == spec.value)
    {
      if page.underground.None? {
        return Ok(());
      }
      var item := page.underground.value.item;
      if item.None? {
        return Ok(());
      }
      var metro := item.value.metroLabel;
      if metro.None? {
        return Ok(());
      }
      GetMetroDistance(item.value);
      r := GetMetroName(metro.value);
      if r.Err? {
        return;
      }
      GetMetroColor(metro.value);
    }

    /** `parse()`: the row scan, then the metro block; the dictionary is returned. */
    method Parse() returns (r: Result<map<string, Field>>)
      requires State() == INITIAL
      modifies this
      ensures r == ParsePage(page)
    {
      ParseTables();
      var m := ParseMetro();
      if m.Err? {
        return Err(m.error);
      }
      return Ok(resultDict);
    }
  }
}
