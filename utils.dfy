/** utils/utils.py: the noise-word address cleaner, the "value unit"
    distance converter and the constant tables they and the query-string
    translator use. The HTTP helper of that file is not modelled (see the
    upstream oracle in parser.dfy). */
module Utils {
  import opened Common
  import opened Strings

  /** Address segments mentioning any of these (in lower case) are dropped. */
  const EXCEPTION_WORDS: seq<string> :=
    ["москва", "российская федерация", "округ", "этаж", "квартира",
     "кв.", "ком.", "пом", "помещение"]

  /** Metres per unit. */
  const CONVERSION_FACTORS: map<string, real> :=
    map["км" := 1000.0, "м" := 1.0, "см" := 0.01]

  /** Query keys that keep only their first value. */
  const SINGLE_FIELDS: seq<string> :=
    ["orderBy", "orderAsc", "tenderStatus", "pageNumber", "pageSize"]

  // ---------------------------------------------------------------------
  // clean_address

  /** The exception words in lower case, computed once
      (`ExceptionWordsLowered` shows they are `Lower` of each word). */
  const LOWER_EXCEPTION_WORDS: seq<string> :=
    ["москва", "российская федерация", "округ", "этаж", "квартира",
     "кв.", "ком.", "пом", "помещение"]

  lemma ExceptionWordsLowered()
    ensures |LOWER_EXCEPTION_WORDS| == |EXCEPTION_WORDS|
    ensures forall i | 0 <= i < |EXCEPTION_WORDS| :: LOWER_EXCEPTION_WORDS[i] == Lower(EXCEPTION_WORDS[i])
  {
    forall i | 0 <= i < |EXCEPTION_WORDS|
      ensures LOWER_EXCEPTION_WORDS[i] == Lower(EXCEPTION_WORDS[i])
    {
      LowerFixed(EXCEPTION_WORDS[i]);
    }
  }

  /** A comma segment whose lower case contains the lower case of some
      exception word. */
  predicate IsNoise(part: string) {
    AnyIn(Lower(part), LOWER_EXCEPTION_WORDS)
  }

  /** `any(w in s for w in ws)`. */
  predicate AnyIn(s: string, ws: seq<string>) {
    ws != [] && (Contains(s, ws[0]) || AnyIn(s, ws[1..]))
  }

  lemma {:induction false} AnyInWitness(s: string, ws: seq<string>) returns (w: string)
    requires AnyIn(s, ws)
    ensures w in ws && Contains(s, w)
  {
    if Contains(s, ws[0]) {
      w := ws[0];
    } else {
      w := AnyInWitness(s, ws[1..]);
    }
  }

  lemma {:induction false} AnyInOf(s: string, ws: seq<string>, w: string)
    requires w in ws && Contains(s, w)
    ensures AnyIn(s, ws)
  {
    if w != ws[0] {
      AnyInOf(s, ws[1..], w);
    }
  }

  lemma {:induction false} AnyInEmpty(ws: seq<string>)
    requires forall k | 0 <= k < |ws| :: |ws[k]| > 0
    ensures !AnyIn("", ws)
  {
    if ws != [] {
      AnyInEmpty(ws[1..]);
    }
  }

  /** The list comprehension of `clean_address`: every segment that is not
      noise, stripped, in input order. */
  function KeptParts(parts: seq<string>): seq<string> {
    if parts == [] then []
    else (if IsNoise(parts[0]) then [] else [Strip(parts[0])]) + KeptParts(parts[1..])
  }

  /** `clean_address(address)`: split on ',', keep the clean segments,
      strip them and join them with ", ". */
  function CleanAddress(address: string): string {
    Join(KeptParts(Split(address, ',')), ", ")
  }

  /** The segments a re-split of `", "`-joined text produces: the first as
      it is, every later one behind the blank that followed its comma. */
  function Blanked(xs: seq<string>): (r: seq<string>)
    ensures |r| == |xs|
  {
    if xs == [] then [] else [" " + xs[0]] + Blanked(xs[1..])
  }

  function StripAll(parts: seq<string>): (r: seq<string>)
    ensures |r| == |parts|
  {
    if parts == [] then [] else [Strip(parts[0])] + StripAll(parts[1..])
  }

  /** `xs` can be obtained from `ys` by deleting elements. */
  predicate IsSubsequence<T(==)>(xs: seq<T>, ys: seq<T>)
    decreases |ys|
  {
    if xs == [] then true
    else if ys == [] then false
    else (xs[0] == ys[0] && IsSubsequence(xs[1..], ys[1..])) || IsSubsequence(xs, ys[1..])
  }

  /** Every exception word is non-empty and does not start with a blank. */
  lemma ExceptionWordsShape()
    ensures forall k | 0 <= k < |LOWER_EXCEPTION_WORDS| ::
      |LOWER_EXCEPTION_WORDS[k]| > 0 && LOWER_EXCEPTION_WORDS[k][0] != ' '
  {
  }

  lemma EmptyIsNotNoise()
    ensures !IsNoise("")
  {
    ExceptionWordsShape();
    AnyInEmpty(LOWER_EXCEPTION_WORDS);
  }

  /** Stripping a segment cannot make it noisy. */
  lemma NoiseOfStrip(p: string)
    requires IsNoise(Strip(p))
    ensures IsNoise(p)
  {
    var i, j := StripIsSlice(p);
    var w := AnyInWitness(Lower(Strip(p)), LOWER_EXCEPTION_WORDS);
    LowerSlice(p, i, j);
    ContainsSlice(Lower(p), i, j, w);
    AnyInOf(Lower(p), LOWER_EXCEPTION_WORDS, w);
  }

  /** The blank put in front of a segment by `", "` cannot make it noisy. */
  lemma NoiseOfBlanked(k: string)
    requires IsNoise(" " + k)
    ensures IsNoise(k)
  {
    ExceptionWordsShape();
    var w := AnyInWitness(Lower(" " + k), LOWER_EXCEPTION_WORDS);
    LowerBlankPrefix(k);
    ContainsBlankPrefix(Lower(k), w);
    AnyInOf(Lower(k), LOWER_EXCEPTION_WORDS, w);
  }

  lemma NoSeparatorInStrip(p: string, c: char)
    requires c !in p
    ensures c !in Strip(p)
  {
    var i, j := StripIsSlice(p);
    assert forall t | 0 <= t < j - i :: Strip(p)[t] == p[i + t];
  }

  /** Each kept segment is clean, stripped and free of the separator. */
  lemma {:induction false} KeptPartsAreClean(parts: seq<string>)
    requires forall k | 0 <= k < |parts| :: ',' !in parts[k]
    ensures forall k | 0 <= k < |KeptParts(parts)| ::
      !IsNoise(KeptParts(parts)[k]) && IsStripped(KeptParts(parts)[k]) && ',' !in KeptParts(parts)[k]
  {
    if parts != [] {
      KeptPartsAreClean(parts[1..]);
      if !IsNoise(parts[0]) {
        NoSeparatorInStrip(parts[0], ',');
        if IsNoise(Strip(parts[0])) { NoiseOfStrip(parts[0]); }
      }
    }
  }

  /** Kept segments keep their relative order: they are a subsequence of
      the stripped input segments, and never more numerous. */
  lemma {:induction false} KeptPartsInOrder(parts: seq<string>)
    ensures |KeptParts(parts)| <= |parts|
    ensures IsSubsequence(KeptParts(parts), StripAll(parts))
  {
    if parts != [] {
      KeptPartsInOrder(parts[1..]);
      var rest := KeptParts(parts[1..]);
      if IsNoise(parts[0]) {
        assert KeptParts(parts) == rest;
        SubsequenceDropHead(rest, StripAll(parts));
      } else {
        assert KeptParts(parts) == [Strip(parts[0])] + rest;
        assert ([Strip(parts[0])] + rest)[1..] == rest;
      }
    }
  }

  lemma {:induction false} SubsequenceDropHead<T>(xs: seq<T>, ys: seq<T>)
    requires ys != [] && IsSubsequence(xs, ys[1..])
    ensures IsSubsequence(xs, ys)
  {
  }

  /** Every segment that is not noise is kept (stripped). */
  lemma {:induction false} CleanPartIsKept(parts: seq<string>, p: string)
    requires p in parts && !IsNoise(p)
    ensures Strip(p) in KeptParts(parts)
  {
    if p == parts[0] {
      assert KeptParts(parts) == [Strip(parts[0])] + KeptParts(parts[1..]);
    } else {
      assert p in parts[1..];
      CleanPartIsKept(parts[1..], p);
      KeptPartsTail(parts, Strip(p));
    }
  }

  /** What the tail keeps, the whole list keeps. */
  lemma KeptPartsTail(parts: seq<string>, k: string)
    requires parts != [] && k in KeptParts(parts[1..])
    ensures k in KeptParts(parts)
  {
    var head := if IsNoise(parts[0]) then [] else [Strip(parts[0])];
    assert KeptParts(parts) == head + KeptParts(parts[1..]);
  }

  /** A kept segment is kept by the head or by the tail. */
  lemma KeptPartsSplit(parts: seq<string>, k: string)
    requires parts != [] && k in KeptParts(parts)
    ensures k in KeptParts(parts[1..]) || (!IsNoise(parts[0]) && k == Strip(parts[0]))
  {
    var head := if IsNoise(parts[0]) then [] else [Strip(parts[0])];
    assert KeptParts(parts) == head + KeptParts(parts[1..]);
  }

  /** Every kept segment is the stripped form of a segment that is not noise. */
  lemma {:induction false} KeptPartIsClean(parts: seq<string>, k: string)
    requires k in KeptParts(parts)
    ensures exists p | p in parts :: !IsNoise(p) && k == Strip(p)
  {
    KeptPartsSplit(parts, k);
    if k in KeptParts(parts[1..]) {
      KeptPartIsClean(parts[1..], k);
      var p :| p in parts[1..] && !IsNoise(p) && k == Strip(p);
      assert p in parts;
    } else {
      assert parts[0] in parts;
    }
  }

  /** Splitting `p + Join(ks, ", ")` on ',' gives `p + ks[0]` and then every
      later segment behind a blank. */
  lemma {:induction false} SplitJoined(p: string, ks: seq<string>)
    requires |ks| > 0
    decreases |ks|
    requires ',' !in p
    requires forall k | 0 <= k < |ks| :: ',' !in ks[k]
    ensures Split(p + Join(ks, ", "), ',') == [p + ks[0]] + Blanked(ks[1..])
  {
    if |ks| == 1 {
      assert ',' !in p + ks[0];
      SplitNoSeparator(p + ks[0], ',');
    } else {
      var tail := Join(ks[1..], ", ");
      assert p + Join(ks, ", ") == (p + ks[0]) + [','] + (" " + tail);
      assert ',' !in p + ks[0];
      SplitAtSeparator(p + ks[0], " " + tail, ',');
      SplitJoined(" ", ks[1..]);
      assert ks[1..][1..] == ks[2..];
      assert " " + tail == " " + Join(ks[1..], ", ");
    }
  }

  /** The comma segments of a cleaned address. */
  lemma CleanedSegments(address: string)
    ensures var ks := KeptParts(Split(address, ','));
      Split(CleanAddress(address), ',') ==
        if ks == [] then [""] else [ks[0]] + Blanked(ks[1..])
  {
    var ks := KeptParts(Split(address, ','));
    if ks != [] {
      KeptPartsAreClean(Split(address, ','));
      SplitJoined("", ks);
      assert "" + Join(ks, ", ") == Join(ks, ", ");
      assert "" + ks[0] == ks[0];
    }
  }

  lemma {:induction false} BlankedAreClean(xs: seq<string>)
    requires forall k | 0 <= k < |xs| :: !IsNoise(xs[k])
    ensures forall k | 0 <= k < |Blanked(xs)| :: !IsNoise(Blanked(xs)[k])
  {
    if xs != [] {
      BlankedAreClean(xs[1..]);
      if IsNoise(" " + xs[0]) { NoiseOfBlanked(xs[0]); }
      assert Blanked(xs) == [" " + xs[0]] + Blanked(xs[1..]);
    }
  }

  /** No comma segment of a cleaned address contains an exception word,
      whatever the case of its letters. */
  lemma CleanAddressHasNoNoise(address: string)
    ensures forall seg | seg in Split(CleanAddress(address), ',') :: !IsNoise(seg)
  {
    var ks := KeptParts(Split(address, ','));
    var segs := Split(CleanAddress(address), ',');
    CleanedSegments(address);
    if ks == [] {
      EmptyIsNotNoise();
      assert segs == [""];
    } else {
      var tail := Blanked(ks[1..]);
      assert segs == [ks[0]] + tail;
      assert !IsNoise(ks[0]) && forall k | 0 <= k < |tail| :: !IsNoise(tail[k]) by {
        KeptPartsAreClean(Split(address, ','));
        forall k | 0 <= k < |ks[1..]|
          ensures !IsNoise(ks[1..][k])
        {
          assert ks[1..][k] == ks[k + 1];
        }
        BlankedAreClean(ks[1..]);
      }
      forall seg | seg in segs
        ensures !IsNoise(seg)
      {
        if seg != ks[0] {
          assert seg in tail;
        }
      }
    }
  }

  /** A cleaned address never has more comma segments than the original. */
  lemma CleanAddressFewerSegments(address: string)
    ensures |Split(CleanAddress(address), ',')| <= |Split(address, ',')|
  {
    CleanedSegments(address);
    KeptPartsInOrder(Split(address, ','));
  }

  lemma {:induction false} KeptPartsOfBlanked(xs: seq<string>)
    requires forall k | 0 <= k < |xs| :: !IsNoise(xs[k]) && IsStripped(xs[k])
    ensures KeptParts(Blanked(xs)) == xs
  {
    if xs != [] {
      var x, tail := xs[0], Blanked(xs[1..]);
      assert Blanked(xs) == [" " + x] + tail;
      BlankedHeadKept(x, tail);
      assert KeptParts(tail) == xs[1..] by {
        forall k | 0 <= k < |xs[1..]|
          ensures !IsNoise(xs[1..][k]) && IsStripped(xs[1..][k])
        {
          assert xs[1..][k] == xs[k + 1];
        }
        KeptPartsOfBlanked(xs[1..]);
      }
      assert [x] + xs[1..] == xs;
    }
  }

  lemma BlankedHeadKept(x: string, tail: seq<string>)
    requires !IsNoise(x) && IsStripped(x)
    ensures KeptParts([" " + x] + tail) == [x] + KeptParts(tail)
  {
    assert !IsNoise(" " + x) by {
      if IsNoise(" " + x) { NoiseOfBlanked(x); }
    }
    KeptCleanHead(" " + x, tail);
    StripBlankPrefix(x);
    StripStripped(x);
  }

  lemma KeptCleanHead(x: string, ys: seq<string>)
    requires !IsNoise(x)
    ensures KeptParts([x] + ys) == [Strip(x)] + KeptParts(ys)
  {
    assert ([x] + ys)[1..] == ys;
  }

  /** `clean_address` is idempotent. */
  lemma CleanAddressIdempotent(address: string)
    ensures CleanAddress(CleanAddress(address)) == CleanAddress(address)
  {
    var ks := KeptParts(Split(address, ','));
    CleanedSegments(address);
    var segs := Split(CleanAddress(address), ',');
    if ks == [] {
      EmptyIsNotNoise();
      assert KeptParts(segs) == [""];
    } else {
      KeptPartsAreClean(Split(address, ','));
      KeptPartsOfBlanked(ks[1..]);
      StripStripped(ks[0]);
      assert segs[1..] == Blanked(ks[1..]);
      assert KeptParts(segs) == [ks[0]] + ks[1..];
      assert [ks[0]] + ks[1..] == ks;
    }
  }

  // ---------------------------------------------------------------------
  // convert_to_meters

  /** `convert_to_meters(s)`: strip, lower-case, delete every '.', then
      exactly two whitespace-separated tokens "value unit" with a known
      unit give value times its factor; any failure gives None. */
  function ConvertToMeters(s: string): Option<real> {
    MetersOfTokens(Words(Normalised(s)))
  }

  /** `s.strip().lower().replace('.', '')`. */
  function Normalised(s: string): string {
    RemoveChar(Lower(Strip(s)), '.')
  }

  /** `value, unit = tokens` then `float(value) * CONVERSION_FACTORS[unit]`,
      with every exception turned into None. */
  function MetersOfTokens(tokens: seq<string>): Option<real> {
    if |tokens| != 2 then None
    else if !IsDigits(tokens[0]) then None
    else if tokens[1] !in CONVERSION_FACTORS then None
    else Some(DigitsValue(tokens[0]) as real * CONVERSION_FACTORS[tokens[1]])
  }

  /** The conversion succeeds exactly when the normalised text is two
      tokens, a digit string and a known unit; the distance is never negative. */
  lemma ConvertToMetersSucceeds(s: string)
    ensures var ws := Words(Normalised(s));
      ConvertToMeters(s).Some? <==> |ws| == 2 && IsDigits(ws[0]) && ws[1] in CONVERSION_FACTORS
    ensures ConvertToMeters(s).Some? ==> ConvertToMeters(s).value >= 0.0
  {
    var ws := Words(Normalised(s));
    assert ConvertToMeters(s) == MetersOfTokens(ws);
    MetersOfTokensSucceeds(ws);
  }

  lemma MetersOfTokensSucceeds(ws: seq<string>)
    ensures MetersOfTokens(ws).Some? <==> |ws| == 2 && IsDigits(ws[0]) && ws[1] in CONVERSION_FACTORS
    ensures MetersOfTokens(ws).Some? ==> MetersOfTokens(ws).value >= 0.0
  {
    if MetersOfTokens(ws).Some? {
      UnitNames(ws[1]);
    }
  }

  lemma NormalisedUnchanged(s: string)
    requires IsStripped(s) && Lower(s) == s && '.' !in s
    ensures Normalised(s) == s
  {
    StripStripped(s);
    RemoveAbsentChar(s, '.');
  }

  /** The unit names are lower case and hold neither a blank nor a dot. */
  lemma UnitsShape(u: string)
    requires u in CONVERSION_FACTORS
    ensures |u| > 0 && NoSpace(u) && '.' !in u && Lower(u) == u
  {
    UnitNames(u);
    UnitNamesLower(u);
    UnitNamesPlain(u);
  }

  lemma UnitNames(u: string)
    requires u in CONVERSION_FACTORS
    ensures u == "км" || u == "м" || u == "см"
  {
  }

  lemma UnitNamesLower(u: string)
    requires u == "км" || u == "м" || u == "см"
    ensures Lower(u) == u
  {
  }

  lemma UnitNamesPlain(u: string)
    requires u == "км" || u == "м" || u == "см"
    ensures |u| > 0 && NoSpace(u) && '.' !in u
  {
  }

  /** Rendering a whole number of units as "n unit" and converting it back
      gives n times the unit's factor. */
  lemma ConvertToMetersRoundTrip(n: nat, unit: string)
    requires unit in CONVERSION_FACTORS
    ensures ConvertToMeters(DecimalString(n) + " " + unit) == Some(n as real * CONVERSION_FACTORS[unit])
  {
    var d := DecimalString(n);
    RenderedUnitIsNormal(n, unit);
    UnitsShape(unit);
    TwoWords(d, unit);
    ConvertViaTokens(d + " " + unit, d, unit);
    DecimalRoundTrip(n);
    MetersOfTwoTokens(d, unit, n);
  }

  lemma RenderedUnitIsNormal(n: nat, unit: string)
    requires unit in CONVERSION_FACTORS
    ensures Normalised(DecimalString(n) + " " + unit) == DecimalString(n) + " " + unit
  {
    UnitsShape(unit);
    RenderedIsNormal(DecimalString(n), unit);
  }

  lemma TwoWords(d: string, unit: string)
    requires IsDigits(d) && |unit| > 0 && NoSpace(unit)
    ensures Words(d + " " + unit) == [d, unit]
  {
    NoSpaceInDigits(d);
    WordsOfTwo(d, unit);
  }

  lemma ConvertViaTokens(s: string, d: string, unit: string)
    requires Normalised(s) == d + " " + unit
    requires Words(d + " " + unit) == [d, unit]
    ensures ConvertToMeters(s) == MetersOfTokens([d, unit])
  {
  }

  lemma MetersOfTwoTokens(d: string, unit: string, n: nat)
    requires IsDigits(d) && unit in CONVERSION_FACTORS
    requires DigitsValue(d) == n
    ensures MetersOfTokens([d, unit]) == Some(n as real * CONVERSION_FACTORS[unit])
  {
    var t := [d, unit];
    assert |t| == 2 && t[0] == d && t[1] == unit;
  }

  lemma RenderedIsNormal(d: string, unit: string)
    requires IsDigits(d)
    requires |unit| > 0 && NoSpace(unit) && '.' !in unit && Lower(unit) == unit
    ensures Normalised(d + " " + unit) == d + " " + unit
  {
    RenderedIsStripped(d, unit);
    RenderedIsLower(d, unit);
    NoDotInDigits(d);
    assert '.' !in d + " " + unit;
    NormalisedUnchanged(d + " " + unit);
  }

  lemma RenderedIsStripped(d: string, unit: string)
    requires IsDigits(d)
    requires |unit| > 0 && NoSpace(unit)
    ensures IsStripped(d + " " + unit)
  {
    var s := d + " " + unit;
    assert s[0] == d[0] && s[|s| - 1] == unit[|unit| - 1];
  }

  lemma RenderedIsLower(d: string, unit: string)
    requires IsDigits(d)
    requires Lower(unit) == unit
    ensures Lower(d + " " + unit) == d + " " + unit
  {
    LowerDigits(d);
    LowerConcat(d, " ");
    LowerConcat(d + " ", unit);
  }

  /** Every '.' is deleted before the value is read, so "x.y unit" reads
      as the digits of x and y run together: "1.2 км" reads like "12 км". */
  lemma ConvertIgnoresDots(x: string, y: string, unit: string)
    requires IsDigits(x) && IsDigits(y) && unit in CONVERSION_FACTORS
    ensures ConvertToMeters(x + "." + y + " " + unit) == ConvertToMeters(x + y + " " + unit)
  {
    DigitsConcat(x, y);
    UnitsShape(unit);
    DottedIsNormal(x, y, unit);
    RenderedIsNormal(x + y, unit);
  }

  lemma ConvertOfNormal(s: string, d: string, unit: string, n: nat)
    requires IsDigits(d) && unit in CONVERSION_FACTORS && DigitsValue(d) == n
    requires Normalised(s) == d + " " + unit
    ensures ConvertToMeters(s) == Some(n as real * CONVERSION_FACTORS[unit])
  {
    UnitsShape(unit);
    TwoWords(d, unit);
    ConvertViaTokens(s, d, unit);
    MetersOfTwoTokens(d, unit, n);
  }

  lemma DigitsConcat(x: string, y: string)
    requires IsDigits(x) && IsDigits(y)
    ensures IsDigits(x + y)
  {
    forall i | 0 <= i < |x + y|
      ensures IsDigit((x + y)[i])
    {
      if i < |x| {
        assert (x + y)[i] == x[i];
      } else {
        assert (x + y)[i] == y[i - |x|];
      }
    }
  }

  lemma DottedIsNormal(x: string, y: string, unit: string)
    requires IsDigits(x) && IsDigits(y)
    requires |unit| > 0 && NoSpace(unit) && '.' !in unit && Lower(unit) == unit
    ensures Normalised(x + "." + y + " " + unit) == x + y + " " + unit
  {
    var s := x + "." + y + " " + unit;
    assert IsStripped(s) by {
      assert s[0] == x[0] && s[|s| - 1] == unit[|unit| - 1];
    }
    StripStripped(s);
    DottedIsLower(x, y, unit);
    DottedRemove(x, y, unit);
  }

  lemma DottedIsLower(x: string, y: string, unit: string)
    requires IsDigits(x) && IsDigits(y) && Lower(unit) == unit
    ensures Lower(x + "." + y + " " + unit) == x + "." + y + " " + unit
  {
    LowerDigits(x);
    LowerDigits(y);
    LowerConcat(x, ".");
    LowerConcat(x + ".", y);
    LowerConcat(x + "." + y, " ");
    LowerConcat(x + "." + y + " ", unit);
  }

  lemma DottedRemove(x: string, y: string, unit: string)
    requires IsDigits(x) && IsDigits(y) && '.' !in unit
    ensures RemoveChar(x + "." + y + " " + unit, '.') == x + y + " " + unit
  {
    NoDotInDigits(x);
    NoDotInDigits(y);
    DotAfterDigits(x, y + " " + unit);
    DottedShape(x, y, unit);
  }

  /** Removing the dots from a dot-free `a` glued to `"." + b` with `b` dot-free
      leaves `a + b`. */
  lemma DotAfterDigits(a: string, b: string)
    requires '.' !in a && '.' !in b
    ensures RemoveChar(a + ("." + b), '.') == a + b
  {
    RemoveAbsentChar(a, '.');
    RemoveAbsentChar(b, '.');
    DropLeadingDot(b);
    RemoveCharConcat(a, "." + b, '.');
  }

  lemma DottedShape(x: string, y: string, unit: string)
    ensures x + "." + y + " " + unit == x + ("." + (y + " " + unit))
    ensures x + y + " " + unit == x + (y + " " + unit)
  {
  }

  lemma DropLeadingDot(rest: string)
    ensures RemoveChar("." + rest, '.') == RemoveChar(rest, '.')
  {
    var s := "." + rest;
    assert s[0] == '.' && s[1..] == rest;
  }
}
