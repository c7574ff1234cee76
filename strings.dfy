/** The parts of Python's `str` that the repository relies on: `isspace`,
    `strip`, `lower`, `in`, `split(sep)`, `split()`, `join`, `replace(c, '')`,
    `startswith`/`endswith`, and `int(...)`/`float(...)` on digit strings. */
module Strings {
  import opened Common

  // ---------------------------------------------------------------------
  // Whitespace and strip()

  /** Python's `str.isspace` for one character. */
  predicate IsSpace(c: char) {
    || c == ' '
    || ('\t' <= c <= '\r')
    || ('\U{1c}' <= c <= '\U{1f}')
    || c == '\U{85}' || c == '\U{a0}' || c == '\U{1680}'
    || ('\U{2000}' <= c <= '\U{200a}')
    || c == '\U{2028}' || c == '\U{2029}' || c == '\U{202f}' || c == '\U{205f}'
    || c == '\U{3000}'
  }

  predicate NoSpace(s: string) {
    forall i | 0 <= i < |s| :: !IsSpace(s[i])
  }

  /** A string that `strip()` leaves as it is. */
  predicate IsStripped(s: string) {
    |s| == 0 || (!IsSpace(s[0]) && !IsSpace(s[|s| - 1]))
  }

  function TrimStart(s: string): (r: string)
    ensures |r| <= |s| && r == s[|s| - |r|..]
    ensures |r| > 0 ==> !IsSpace(r[0])
    ensures forall i | 0 <= i < |s| - |r| :: IsSpace(s[i])
  {
    if |s| > 0 && IsSpace(s[0]) then TrimStart(s[1..]) else s
  }

  function TrimEnd(s: string): (r: string)
    ensures |r| <= |s| && r == s[..|r|]
    ensures |r| > 0 ==> !IsSpace(r[|r| - 1])
    ensures forall i | |r| <= i < |s| :: IsSpace(s[i])
  {
    if |s| > 0 && IsSpace(s[|s| - 1]) then TrimEnd(s[..|s| - 1]) else s
  }

  /** Python's `s.strip()`: drop leading and trailing whitespace. */
  function Strip(s: string): (r: string)
    ensures IsStripped(r)
  {
    TrimEnd(TrimStart(s))
  }

  /** What `strip()` keeps is one contiguous slice of its input. */
  lemma StripIsSlice(s: string) returns (i: nat, j: nat)
    ensures i <= j <= |s| && Strip(s) == s[i..j]
  {
    var t := TrimStart(s);
    var e := TrimEnd(t);
    i := |s| - |t|;
    j := i + |e|;
    SliceOfSuffix(s, i, j);
    assert Strip(s) == e;
  }

  lemma SliceOfSuffix(s: string, i: nat, j: nat)
    requires i <= j <= |s|
    ensures s[i..][..j - i] == s[i..j]
  {
    var a, b := s[i..][..j - i], s[i..j];
    assert |a| == |b|;
    forall t | 0 <= t < j - i
      ensures a[t] == b[t]
    {
      assert a[t] == s[i..][t] == s[i + t];
    }
  }

  lemma StripStripped(s: string)
    requires IsStripped(s)
    ensures Strip(s) == s
  {
  }

  /** A leading blank does not change what `strip()` returns. */
  lemma StripBlankPrefix(s: string)
    ensures Strip(" " + s) == Strip(s)
  {
    assert (" " + s)[1..] == s;
  }

  // ---------------------------------------------------------------------
  // lower()

  /** Lower-casing of one character: ASCII and the Cyrillic capitals. */
  function LowerChar(c: char): char {
    if 'A' <= c <= 'Z' then (c as int + 32) as char
    else if '\U{410}' <= c <= '\U{42f}' then (c as int + 32) as char
    else if '\U{400}' <= c <= '\U{40f}' then (c as int + 80) as char
    else c
  }

  /** Python's `s.lower()`, character by character. */
  function Lower(s: string): (r: string)
    ensures |r| == |s|
    ensures forall i | 0 <= i < |s| :: r[i] == LowerChar(s[i])
  {
    if s == [] then [] else [LowerChar(s[0])] + Lower(s[1..])
  }

  lemma LowerSlice(s: string, i: nat, j: nat)
    requires i <= j <= |s|
    ensures Lower(s[i..j]) == Lower(s)[i..j]
  {
  }

  lemma LowerConcat(a: string, b: string)
    ensures Lower(a + b) == Lower(a) + Lower(b)
  {
  }

  lemma LowerDigits(d: string)
    requires forall i | 0 <= i < |d| :: IsDigit(d[i])
    ensures Lower(d) == d
  {
  }

  /** Text without capitals is its own lower case. */
  lemma LowerFixed(s: string)
    requires forall i | 0 <= i < |s| :: LowerChar(s[i]) == s[i]
    ensures Lower(s) == s
  {
  }

  lemma LowerBlankPrefix(s: string)
    ensures Lower(" " + s) == " " + Lower(s)
  {
  }

  // ---------------------------------------------------------------------
  // `w in s` on strings

  /** Python's substring test `w in s`: `s` starts with `w`, or its tail
      contains `w`. */
  predicate Contains(s: string, w: string)
    decreases |s|
  {
    StartsWith(s, w) || (s != [] && Contains(s[1..], w))
  }

  predicate OccursAt(s: string, w: string, i: nat) {
    i + |w| <= |s| && s[i..i + |w|] == w
  }

  /** `w in s` holds exactly when `w` occurs in `s` at some index. */
  lemma {:induction false} ContainsOccurs(s: string, w: string)
    ensures Contains(s, w) <==> exists i | 0 <= i <= |s| - |w| :: OccursAt(s, w, i)
    decreases |s|
  {
    if s != [] {
      ContainsOccurs(s[1..], w);
      if StartsWith(s, w) {
        assert s[0..|w|] == s[..|w|];
        assert OccursAt(s, w, 0);
      }
      if Contains(s[1..], w) {
        var i :| 0 <= i <= |s| - 1 - |w| && OccursAt(s[1..], w, i);
        SliceOfTail(s, i, |w|);
        assert OccursAt(s, w, i + 1);
      }
      if exists i | 0 <= i <= |s| - |w| :: OccursAt(s, w, i) {
        var i :| 0 <= i <= |s| - |w| && OccursAt(s, w, i);
        if i == 0 {
          assert s[..|w|] == s[0..|w|];
        } else {
          SliceOfTail(s, i - 1, |w|);
          assert OccursAt(s[1..], w, i - 1);
        }
      }
    } else {
      if exists i | 0 <= i <= |s| - |w| :: OccursAt(s, w, i) {
        assert |w| == 0;
        assert StartsWith(s, w);
      }
      if Contains(s, w) {
        assert OccursAt(s, w, 0);
      }
    }
  }

  lemma SliceOfTail(s: string, i: nat, n: nat)
    requires i + n < |s|
    ensures s[1..][i..i + n] == s[i + 1..i + 1 + n]
  {
    var a, b := s[1..][i..i + n], s[i + 1..i + 1 + n];
    assert |a| == |b|;
    forall t | 0 <= t < n
      ensures a[t] == b[t]
    {
      assert a[t] == s[1..][i + t] == s[i + 1 + t];
    }
  }

  /** A substring of a slice is a substring of the whole. */
  lemma ContainsSlice(s: string, i: nat, j: nat, w: string)
    requires i <= j <= |s|
    requires Contains(s[i..j], w)
    ensures Contains(s, w)
  {
    ContainsOccurs(s[i..j], w);
    ContainsOccurs(s, w);
    var k :| 0 <= k <= j - i - |w| && OccursAt(s[i..j], w, k);
    assert k + |w| <= j - i;
    var whole, part := s[i + k..i + k + |w|], s[i..j][k..k + |w|];
    assert |whole| == |part|;
    assert forall t | 0 <= t < |whole| :: whole[t] == part[t];
    assert whole == part;
    assert OccursAt(s, w, i + k);
  }

  /** A non-empty word that does not start with a blank is found in
      `" " + s` only when it is found in `s`. */
  lemma ContainsBlankPrefix(s: string, w: string)
    requires |w| > 0 && w[0] != ' '
    requires Contains(" " + s, w)
    ensures Contains(s, w)
  {
    ContainsOccurs(" " + s, w);
    ContainsOccurs(s, w);
    var k :| 0 <= k <= |s| + 1 - |w| && OccursAt(" " + s, w, k);
    assert (" " + s)[k] == w[0] by { assert (" " + s)[k..k + |w|][0] == (" " + s)[k]; }
    assert s[k - 1..k - 1 + |w|] == (" " + s)[k..k + |w|];
    assert OccursAt(s, w, k - 1);
  }

  predicate StartsWith(s: string, p: string) {
    |p| <= |s| && s[..|p|] == p
  }

  predicate EndsWith(s: string, p: string) {
    |p| <= |s| && s[|s| - |p|..] == p
  }

  // ---------------------------------------------------------------------
  // split(sep) and join

  /** Python's `s.split(c)` for a one-character separator: always at least
      one piece, and no piece holds the separator. */
  function Split(s: string, c: char): (r: seq<string>)
    ensures |r| >= 1
    ensures forall k | 0 <= k < |r| :: c !in r[k]
  {
    if s == [] then [""]
    else
      var rest := Split(s[1..], c);
      if s[0] == c then [""] + rest else [[s[0]] + rest[0]] + rest[1..]
  }

  /** Python's `sep.join(parts)`. */
  function Join(parts: seq<string>, sep: string): string {
    if |parts| == 0 then ""
    else if |parts| == 1 then parts[0]
    else parts[0] + sep + Join(parts[1..], sep)
  }

  /** Joining the pieces of a split with the separator restores the string. */
  lemma {:induction false} JoinSplit(s: string, c: char)
    ensures Join(Split(s, c), [c]) == s
  {
    if s != [] {
      var rest := Split(s[1..], c);
      JoinSplit(s[1..], c);
      if s[0] == c {
        assert Split(s, c) == [""] + rest;
        assert Join(Split(s, c), [c]) == "" + [c] + Join(rest, [c]);
      } else {
        var p := Split(s, c);
        assert p == [[s[0]] + rest[0]] + rest[1..];
        if |rest| == 1 {
          assert Join(p, [c]) == [s[0]] + Join(rest, [c]);
        } else {
          assert p[1..] == rest[1..];
          assert Join(p, [c]) == [s[0]] + rest[0] + [c] + Join(rest[1..], [c]);
          assert Join(rest, [c]) == rest[0] + [c] + Join(rest[1..], [c]);
        }
      }
    }
  }

  lemma {:induction false} SplitNoSeparator(s: string, c: char)
    requires c !in s
    ensures Split(s, c) == [s]
  {
    if s != [] {
      SplitNoSeparator(s[1..], c);
      assert [s[0]] + s[1..] == s;
    }
  }

  /** Splitting `a + [c] + b` where `a` has no separator gives `a` then the
      pieces of `b`. */
  lemma {:induction false} SplitAtSeparator(a: string, b: string, c: char)
    requires c !in a
    ensures Split(a + [c] + b, c) == [a] + Split(b, c)
  {
    var s := a + [c] + b;
    if a == [] {
      assert s[1..] == b;
    } else {
      assert s[1..] == a[1..] + [c] + b;
      SplitAtSeparator(a[1..], b, c);
      assert [s[0]] + a[1..] == a;
    }
  }

  // ---------------------------------------------------------------------
  // split() on whitespace

  /** The longest prefix of `s` without whitespace. */
  function Token(s: string): (r: string)
    ensures |r| <= |s| && r == s[..|r|] && NoSpace(r)
    ensures |r| < |s| ==> IsSpace(s[|r|])
  {
    if s == [] || IsSpace(s[0]) then [] else [s[0]] + Token(s[1..])
  }

  /** Python's `s.split()`: the maximal runs of non-whitespace, in order. */
  function Words(s: string): (r: seq<string>)
    ensures forall k | 0 <= k < |r| :: |r[k]| > 0 && NoSpace(r[k])
    decreases |s|
  {
    var t := TrimStart(s);
    if t == [] then []
    else
      var w := Token(t);
      assert |w| > 0 by { assert !IsSpace(t[0]); }
      var rest := t[|w|..];
      assert |rest| < |s|;
      var ws := Words(rest);
      WordsCellsCons(w, ws);
      [w] + ws
  }

  lemma WordsCellsCons(w: string, ws: seq<string>)
    requires |w| > 0 && NoSpace(w)
    requires forall k | 0 <= k < |ws| :: |ws[k]| > 0 && NoSpace(ws[k])
    ensures forall k | 0 <= k < |[w] + ws| :: |([w] + ws)[k]| > 0 && NoSpace(([w] + ws)[k])
  {
    forall k | 0 <= k < |[w] + ws|
      ensures |([w] + ws)[k]| > 0 && NoSpace(([w] + ws)[k])
    {
      if k > 0 {
        assert ([w] + ws)[k] == ws[k - 1];
      }
    }
  }

  lemma {:induction false} TokenOfNoSpace(a: string, b: string)
    requires NoSpace(a)
    requires |b| == 0 || IsSpace(b[0])
    ensures Token(a + b) == a
    decreases |a|
  {
    if a == [] {
      assert a + b == b;
    } else {
      var s := a + b;
      assert s[0] == a[0] && !IsSpace(a[0]);
      assert s[1..] == a[1..] + b;
      assert NoSpace(a[1..]) by {
        forall i | 0 <= i < |a[1..]| ensures !IsSpace(a[1..][i]) { assert a[1..][i] == a[i + 1]; }
      }
      TokenOfNoSpace(a[1..], b);
      assert Token(s) == [a[0]] + a[1..];
      assert [a[0]] + a[1..] == a;
    }
  }

  /** A word followed by whitespace (or nothing) is split off first. */
  lemma WordsCons(w: string, rest: string)
    requires |w| > 0 && NoSpace(w)
    requires |rest| == 0 || IsSpace(rest[0])
    ensures Words(w + rest) == [w] + Words(rest)
  {
    var s := w + rest;
    assert s[0] == w[0];
    assert TrimStart(s) == s;
    TokenOfNoSpace(w, rest);
    assert s[|w|..] == rest;
  }

  lemma WordsBlankPrefix(s: string)
    ensures Words(" " + s) == Words(s)
  {
    assert (" " + s)[1..] == s;
    assert TrimStart(" " + s) == TrimStart(s);
  }

  lemma WordsOfWord(w: string)
    requires |w| > 0 && NoSpace(w)
    ensures Words(w) == [w]
  {
    assert w + "" == w;
    assert Words("") == [] by { assert TrimStart("") == ""; }
    assert Words(w + "") == [w] + Words("") by { WordsCons(w, ""); }
  }

  /** Two words separated by one blank split back into those two words. */
  lemma WordsOfTwo(a: string, b: string)
    requires |a| > 0 && NoSpace(a)
    requires |b| > 0 && NoSpace(b)
    ensures Words(a + " " + b) == [a, b]
  {
    assert a + " " + b == a + (" " + b);
    assert Words(a + (" " + b)) == [a] + Words(" " + b) by { WordsCons(a, " " + b); }
    assert Words(" " + b) == [b] by {
      WordsBlankPrefix(b);
      WordsOfWord(b);
    }
    PairConcat(a, b);
  }

  lemma PairConcat<T>(a: T, b: T)
    ensures [a] + [b] == [a, b]
  {
  }

  /** A word, one blank and more text: the word is split off first. */
  lemma WordsOfBlankJoin(w: string, rest: string)
    requires |w| > 0 && NoSpace(w)
    ensures Words(w + " " + rest) == [w] + Words(rest)
  {
    assert w + " " + rest == w + (" " + rest);
    WordsCons(w, " " + rest);
    WordsBlankPrefix(rest);
  }

  /** Words joined by single blanks split back into those words. */
  lemma {:induction false} WordsOfJoined(ws: seq<string>)
    requires forall k | 0 <= k < |ws| :: |ws[k]| > 0 && NoSpace(ws[k])
    ensures Words(Join(ws, " ")) == ws
  {
    if |ws| == 0 {
      assert TrimStart("") == "";
    } else if |ws| == 1 {
      WordsOfWord(ws[0]);
    } else {
      var tail := ws[1..];
      var j := Join(tail, " ");
      assert Join(ws, " ") == ws[0] + " " + j;
      assert Words(ws[0] + " " + j) == [ws[0]] + Words(j) by {
        WordsOfBlankJoin(ws[0], j);
      }
      assert Words(j) == tail by {
        WordsOfJoined(tail);
      }
      assert ws == [ws[0]] + tail;
    }
  }

  /** Digit groups run together form one digit string. */
  lemma {:induction false} DigitGroupsJoined(ws: seq<string>)
    requires |ws| > 0 && forall k | 0 <= k < |ws| :: IsDigits(ws[k])
    ensures IsDigits(Join(ws, ""))
  {
    if |ws| > 1 {
      DigitGroupsJoined(ws[1..]);
      var rest := Join(ws[1..], "");
      var j := Join(ws, "");
      assert j == ws[0] + rest;
      forall i | 0 <= i < |j|
        ensures IsDigit(j[i])
      {
        if i < |ws[0]| {
          assert j[i] == ws[0][i];
        } else {
          assert j[i] == rest[i - |ws[0]|];
        }
      }
    }
  }

  /** A character in neither the parts nor the separator is not in their join. */
  lemma {:induction false} NotInJoin(ws: seq<string>, sep: string, c: char)
    requires c !in sep
    requires forall k | 0 <= k < |ws| :: c !in ws[k]
    ensures c !in Join(ws, sep)
  {
    if |ws| > 1 {
      NotInJoin(ws[1..], sep, c);
    }
  }

  // ---------------------------------------------------------------------
  // replace(c, '')

  /** Python's `s.replace(c, '')` for one character. */
  function RemoveChar(s: string, c: char): (r: string)
    ensures c !in r
    ensures |r| <= |s|
  {
    if s == [] then []
    else (if s[0] == c then [] else [s[0]]) + RemoveChar(s[1..], c)
  }

  lemma {:induction false} RemoveCharConcat(a: string, b: string, c: char)
    ensures RemoveChar(a + b, c) == RemoveChar(a, c) + RemoveChar(b, c)
  {
    if a != [] {
      assert (a + b)[0] == a[0];
      assert (a + b)[1..] == a[1..] + b;
      RemoveCharConcat(a[1..], b, c);
      var h := if a[0] == c then [] else [a[0]];
      assert RemoveChar(a, c) == h + RemoveChar(a[1..], c);
      assert RemoveChar(a + b, c) == h + RemoveChar(a[1..] + b, c);
    } else {
      assert a + b == b;
    }
  }

  lemma {:induction false} RemoveAbsentChar(s: string, c: char)
    requires c !in s
    ensures RemoveChar(s, c) == s
  {
    if s != [] {
      RemoveAbsentChar(s[1..], c);
    }
  }

  // ---------------------------------------------------------------------
  // Decimal digits, int(...) and float(...)

  predicate IsDigit(c: char) {
    '0' <= c <= '9'
  }

  /** A non-empty run of ASCII digits. */
  predicate IsDigits(s: string) {
    |s| > 0 && forall i | 0 <= i < |s| :: IsDigit(s[i])
  }

  lemma NoDotInDigits(d: string)
    requires forall i | 0 <= i < |d| :: IsDigit(d[i])
    ensures '.' !in d
  {
  }

  lemma NoSpaceInDigits(d: string)
    requires forall i | 0 <= i < |d| :: IsDigit(d[i])
    ensures NoSpace(d)
  {
  }

  function DigitsValue(s: string): nat
    requires forall i | 0 <= i < |s| :: IsDigit(s[i])
  {
    if s == [] then 0
    else
      assert IsDigit(s[|s| - 1]);
      DigitsValue(s[..|s| - 1]) * 10 + (s[|s| - 1] as int - '0' as int)
  }

  function DigitChar(d: nat): (c: char)
    requires d < 10
    ensures IsDigit(c) && c as int - '0' as int == d
  {
    ('0' as int + d) as char
  }

  /** The decimal rendering of a natural number, as `str(n)` gives it. */
  function DecimalString(n: nat): (s: string)
    ensures IsDigits(s)
  {
    if n < 10 then [DigitChar(n)] else DecimalString(n / 10) + [DigitChar(n % 10)]
  }

  lemma {:induction false} DecimalRoundTrip(n: nat)
    ensures DigitsValue(DecimalString(n)) == n
  {
    if n >= 10 {
      var s := DecimalString(n);
      DecimalRoundTrip(n / 10);
      assert s[..|s| - 1] == DecimalString(n / 10);
    }
  }

  /** Python's `int(s)` on text: surrounding whitespace, an optional sign,
      then ASCII digits; anything else raises ValueError (None here). */
  function PythonInt(s: string): Option<int> {
    var t := Strip(s);
    if |t| > 0 && (t[0] == '+' || t[0] == '-') then
      if IsDigits(t[1..]) then
        var v: int := DigitsValue(t[1..]);
        Some(if t[0] == '-' then 0 - v else v)
      else None
    else if IsDigits(t) then Some(DigitsValue(t))
    else None
  }

  /** `int(str(n)) == n`. */
  lemma PythonIntDecimal(n: nat)
    ensures PythonInt(DecimalString(n)) == Some(n)
  {
    var s := DecimalString(n);
    StripStripped(s);
    DecimalRoundTrip(n);
  }
}
