/** models/filter_models.py: the translation of a search-page query string
    into the filter dictionary, and the filter object the crawler sends. */
module FilterModels {
  import opened Common
  import opened Strings
  import opened Utils

  /** A value of the converted dictionary. */
  datatype Converted =
    | Flag                                // True
    | Single(text: string)                // the first value
    | Bounds(ends: map<string, string>)   // {'min': ..., 'max': ...} of a ".min"/".max" key
    | Range(min: string, max: string)     // Range(min=value[0], max=value[1])
    | Values(values: seq<string>)         // the value list unchanged

  /** Keys with these prefixes (and no ".min"/".max" suffix) are ranges. */
  const RANGE_PREFIXES: seq<string> := ["price", "area", "floor", "number_floors"]

  predicate IsBoundKey(key: string) {
    EndsWith(key, ".min") || EndsWith(key, ".max")
  }

  predicate IsRangeKey(key: string) {
    exists p | p in RANGE_PREFIXES :: StartsWith(key, p)
  }

  /** One pass of the loop body of `parse_url` for `key` and its value list. */
  function Convert(res: map<string, Converted>, key: string, values: seq<string>): (r: Result<map<string, Converted>>)
    ensures values == [] ==> r == Err(IndexError)
    ensures values != [] && values[0] == "true" ==> r == Ok(res[key := Flag])
    ensures values != [] && values[0] == "false" ==> r == Err(TypeError)
    ensures r.Ok? ==> forall k | k in res :: k in r.value
  {
    if values == [] then Err(IndexError)
    else if values[0] == "true" then Ok(res[key := Flag])
    else if values[0] == "false" then Err(TypeError)
    else if key in SINGLE_FIELDS then Ok(res[key := Single(values[0])])
    else if IsBoundKey(key) then
      var base := key[..|key| - 4];
      var end := key[|key| - 3..];
      if base !in res then Ok(res[base := Bounds(map[end := values[0]])])
      else if res[base].Bounds? then Ok(res[base := Bounds(res[base].ends[end := values[0]])])
      else Err(TypeError)
    else if IsRangeKey(key) then
      if |values| < 2 then Err(IndexError) else Ok(res[key := Range(values[0], values[1])])
    else Ok(res[key := Values(values)])
  }

  /** The converted dictionary after the first `|query|` items, or the
      exception that stopped the loop. */
  function ConvertAll(query: seq<(string, seq<string>)>): Result<map<string, Converted>>
    decreases |query|
  {
    if query == [] then Ok(map[])
    else
      match ConvertAll(query[..|query| - 1])
      case Err(e) => Err(e)
      case Ok(res) => Convert(res, query[|query| - 1].0, query[|query| - 1].1)
  }

  /** `parse_url` up to `FilterParams.parse_obj`, on the items `parse_qs` produced. */
  method ParseQuery(query: seq<(string, seq<string>)>) returns (r: Result<map<string, Converted>>)
    ensures r == ConvertAll(query)
  {
    var converted: map<string, Converted> := map[];
    var i := 0;
    while i < |query|
      invariant 0 <= i <= |query|
      invariant ConvertAll(query[..i]) == Ok(converted)
    {
      var (key, value) := query[i];
      ghost var next := Convert(converted, key, value);
      assert query[..i + 1][..i] == query[..i];
      assert ConvertAll(query[..i + 1]) == next;
      if next.Err? {
        StopsAtError(query, i + 1);
      }
      if |value| == 0 {
        return Err(IndexError);
      }
      if value[0] == "true" {
        converted := converted[key := Flag];
      } else if value[0] == "false" {
        // the item is replaced by False, whose subscript raises
        return Err(TypeError);
      } else if key in SINGLE_FIELDS {
        converted := converted[key := Single(value[0])];
      } else if EndsWith(key, ".min") || EndsWith(key, ".max") {
        var rangeKey := key[..|key| - 4];
        ghost var old_converted := converted;
        if rangeKey !in converted {
          converted := converted[rangeKey := Bounds(map[])];
        } else if !converted[rangeKey].Bounds? {
          return Err(TypeError);
        }
        var ends := converted[rangeKey].ends;
        assert ends == if rangeKey in old_converted then old_converted[rangeKey].ends else map[];
        var end := key[|key| - 3..];
        converted := converted[rangeKey := Bounds(ends[end := value[0]])];
        assert converted == old_converted[rangeKey := Bounds(ends[end := value[0]])];
        assert rangeKey !in old_converted ==> ends[end := value[0]] == map[end := value[0]];
      } else if IsRangeKey(key) {
        if |value| < 2 {
          return Err(IndexError);
        }
        converted := converted[key := Range(value[0], value[1])];
      } else {
        converted := converted[key := Values(value)];
      }
      assert next == Ok(converted);
      i := i + 1;
    }
    assert query[..|query|] == query;
    return Ok(converted);
  }

  /** Once a prefix of the items raises, the whole translation raises the same. */
  lemma StopsAtError(query: seq<(string, seq<string>)>, n: nat)
    requires n <= |query| && ConvertAll(query[..n]).Err?
    ensures ConvertAll(query) == ConvertAll(query[..n])
  {
    ErrorIsFinal(query[..n], query[n..]);
    assert query[..n] + query[n..] == query;
  }

  // ---------------------------------------------------------------------
  // Properties of the translation

  /** A first value of "false" anywhere in the query makes the translation
      raise, whatever the other items are. */
  lemma {:induction false} FalseAlwaysRaises(query: seq<(string, seq<string>)>, i: nat)
    requires i < |query| && |query[i].1| > 0 && query[i].1[0] == "false"
    ensures ConvertAll(query).Err?
    decreases |query|
  {
    var n := |query| - 1;
    if i < n {
      assert query[..n][i] == query[i];
      FalseAlwaysRaises(query[..n], i);
    }
  }

  /** A single-valued item among the later ones cannot undo an earlier error. */
  lemma {:induction false} ErrorIsFinal(query: seq<(string, seq<string>)>, more: seq<(string, seq<string>)>)
    requires ConvertAll(query).Err?
    ensures ConvertAll(query + more) == ConvertAll(query)
    decreases |more|
  {
    if more != [] {
      var all := query + more;
      assert all[..|all| - 1] == query + more[..|more| - 1];
      ErrorIsFinal(query, more[..|more| - 1]);
    } else {
      assert query + more == query;
    }
  }

  /** Keys in SINGLE_FIELDS keep only their first value. */
  lemma SingleFieldKeepsFirst(res: map<string, Converted>, key: string, values: seq<string>)
    requires key in SINGLE_FIELDS && values != [] && values[0] != "true" && values[0] != "false"
    ensures Convert(res, key, values) == Ok(res[key := Single(values[0])])
  {
  }

  lemma NoSingleFieldIsBound()
    ensures forall k | k in SINGLE_FIELDS :: !IsBoundKey(k)
  {
    forall k | k in SINGLE_FIELDS
      ensures !IsBoundKey(k)
    {
      assert k[|k| - 4] != '.';
    }
  }

  lemma BoundKeyOf(base: string, suffix: string)
    requires suffix == ".min" || suffix == ".max"
    ensures IsBoundKey(base + suffix)
    ensures (base + suffix)[..|base + suffix| - 4] == base
    ensures (base + suffix)[|base + suffix| - 3..] == suffix[1..]
    ensures base + suffix !in SINGLE_FIELDS
  {
    var k := base + suffix;
    assert k[|k| - 4..] == suffix;
    assert k[..|k| - 4] == base;
    NoSingleFieldIsBound();
  }

  /** "<base>.min" and "<base>.max" are stored under `base`, and the second
      joins the dictionary made by the first. */
  lemma BoundsMerge(res: map<string, Converted>, base: string, x: string, y: string)
    requires x != "true" && x != "false" && y != "true" && y != "false"
    requires base !in res
    ensures Convert(res, base + ".min", [x]) == Ok(res[base := Bounds(map["min" := x])])
    ensures Convert(res[base := Bounds(map["min" := x])], base + ".max", [y])
      == Ok(res[base := Bounds(map["min" := x, "max" := y])])
  {
    BoundKeyOf(base, ".min");
    BoundKeyOf(base, ".max");
    assert ".min"[1..] == "min" && ".max"[1..] == "max";
    var m := res[base := Bounds(map["min" := x])];
    assert m[base].ends["max" := y] == map["min" := x, "max" := y];
    assert m[base := Bounds(map["min" := x, "max" := y])] == res[base := Bounds(map["min" := x, "max" := y])];
  }

  /** A bound key whose base already holds something that is not a bounds
      dictionary raises TypeError (item assignment on a non-dict). */
  lemma BoundOnNonDictRaises(res: map<string, Converted>, base: string, suffix: string, x: string)
    requires suffix == ".min" || suffix == ".max"
    requires x != "true" && x != "false"
    requires base in res && !res[base].Bounds?
    ensures Convert(res, base + suffix, [x]) == Err(TypeError)
  {
    BoundKeyOf(base, suffix);
  }

  /** A range key keeps the first two values as a Range and raises
      IndexError when it has only one. */
  lemma RangeKeyNeedsTwo(res: map<string, Converted>, key: string, values: seq<string>)
    requires IsRangeKey(key) && !IsBoundKey(key) && key !in SINGLE_FIELDS
    requires values != [] && values[0] != "true" && values[0] != "false"
    ensures |values| < 2 ==> Convert(res, key, values) == Err(IndexError)
    ensures |values| >= 2 ==> Convert(res, key, values) == Ok(res[key := Range(values[0], values[1])])
  {
  }

  /** Every other key keeps its full value list. */
  lemma OtherKeyKeepsList(res: map<string, Converted>, key: string, values: seq<string>)
    requires !IsRangeKey(key) && !IsBoundKey(key) && key !in SINGLE_FIELDS
    requires values != [] && values[0] != "true" && values[0] != "false"
    ensures Convert(res, key, values) == Ok(res[key := Values(values)])
  {
  }

  /** "price_from" style keys are ranges: the prefix test sees only the start. */
  lemma PriceIsRange(rest: string)
    ensures IsRangeKey("price" + rest)
  {
    assert StartsWith("price" + rest, RANGE_PREFIXES[0]) by {
      assert ("price" + rest)[..5] == "price";
    }
  }

  /** Every key of a translated query is an input key or the base of a
      bound key. */
  lemma {:induction false} ConvertedKeys(query: seq<(string, seq<string>)>)
    requires ConvertAll(query).Ok?
    ensures forall k | k in ConvertAll(query).value ::
      exists i | 0 <= i < |query| :: (k == query[i].0 ||
        (IsBoundKey(query[i].0) && k == query[i].0[..|query[i].0| - 4]))
    decreases |query|
  {
    if query != [] {
      var n := |query| - 1;
      var prefix := query[..n];
      ConvertedKeys(prefix);
      forall k | k in ConvertAll(query).value
        ensures exists i | 0 <= i < |query| :: (k == query[i].0 ||
          (IsBoundKey(query[i].0) && k == query[i].0[..|query[i].0| - 4]))
      {
        if k in ConvertAll(prefix).value {
          var i :| 0 <= i < n && (k == prefix[i].0 ||
            (IsBoundKey(prefix[i].0) && k == prefix[i].0[..|prefix[i].0| - 4]));
          assert prefix[i] == query[i];
        } else {
          assert k == query[n].0 || (IsBoundKey(query[n].0) && k == query[n].0[..|query[n].0| - 4]);
        }
      }
    }
  }

  // ---------------------------------------------------------------------
  // The filter object

  /** The request body of one search page: the filters, `pageNumber` and `pageSize`. */
  datatype SearchQuery = SearchQuery(pageNumber: int, pageSize: int, filters: map<string, Converted>)

  /** A `FilterParams` instance; the crawler updates its page fields in place. */
  class FilterParams {
    var pageNumber: int
    var pageSize: int
    var filters: map<string, Converted>

    /** The defaults of the base model: page 1, one item per page. */
    constructor(filters: map<string, Converted>)
      ensures pageNumber == 1 && pageSize == 1 && this.filters == filters
    {
      pageNumber := 1;
      pageSize := 1;
      this.filters := filters;
    }

    /** `params.dict(by_alias=True, exclude_none=True)`. */
    function AsQuery(): (q: SearchQuery)
      reads this
    {
      SearchQuery(pageNumber, pageSize, filters)
    }
  }
}
