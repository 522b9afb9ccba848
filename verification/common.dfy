/** Shared vocabulary for the whole model: an optional value, and the small
    string operations the program leans on (ASCII case mapping, substring
    search, whitespace trimming and splitting, decimal rendering).

    Strings are sequences of characters. Only ASCII letters have a case and
    only the six ASCII whitespace characters count as whitespace. */
module Common {

  datatype Option<+T> = None | Some(value: T) {
    function GetOr(default: T): T {
      match this
      case Some(v) => v
      case None => default
    }
  }

  /** A JSON value. Objects keep their members in insertion order, as the
      dictionaries of the program do. Only integer numbers are modelled. */
  datatype Json =
    | JNull
    | JBool(b: bool)
    | JInt(i: int)
    | JStr(s: string)
    | JArr(items: seq<Json>)
    | JObj(members: seq<(string, Json)>)
  {
    /** The value of the first member named `key`, when this is an object
        that has one. */
    function Get(key: string): (r: Option<Json>)
      ensures r.Some? ==> JObj?
    {
      if !JObj? then None else Lookup(members, key)
    }
  }

  function Lookup(members: seq<(string, Json)>, key: string): (r: Option<Json>)
    ensures r.Some? <==> exists i :: 0 <= i < |members| && members[i].0 == key
    ensures r.Some? ==> exists i :: 0 <= i < |members| && members[i] == (key, r.value)
  {
    if |members| == 0 then None
    else if members[0].0 == key then Some(members[0].1)
    else
      var r := Lookup(members[1..], key);
      assert forall i :: 1 <= i < |members| ==> members[i] == members[1..][i - 1];
      r
  }

  // ---------------------------------------------------------------- case

  function LowerChar(c: char): char {
    if 'A' <= c <= 'Z' then (c as int + 32) as char else c
  }

  function UpperChar(c: char): char {
    if 'a' <= c <= 'z' then (c as int - 32) as char else c
  }

  /** Lower-cases every ASCII letter and leaves every other character. */
  function Lower(s: string): (r: string)
    ensures |r| == |s|
    ensures forall i :: 0 <= i < |s| ==> r[i] == LowerChar(s[i])
  {
    seq(|s|, i requires 0 <= i < |s| => LowerChar(s[i]))
  }

  function Upper(s: string): (r: string)
    ensures |r| == |s|
    ensures forall i :: 0 <= i < |s| ==> r[i] == UpperChar(s[i])
  {
    seq(|s|, i requires 0 <= i < |s| => UpperChar(s[i]))
  }

  /** Case mapping works character by character, so it distributes over
      concatenation. */
  lemma LowerConcat(a: string, b: string)
    ensures Lower(a + b) == Lower(a) + Lower(b)
  {
    assert forall i :: 0 <= i < |a + b| ==> Lower(a + b)[i] == (Lower(a) + Lower(b))[i] by {
      forall i | 0 <= i < |a + b|
        ensures Lower(a + b)[i] == (Lower(a) + Lower(b))[i]
      {
        if i < |a| {
          assert (a + b)[i] == a[i];
        } else {
          assert (a + b)[i] == b[i - |a|];
        }
      }
    }
  }

  lemma LowerIdempotent(s: string)
    ensures Lower(Lower(s)) == Lower(s)
  {
  }

  // ---------------------------------------------------------- substrings

  predicate StartsWith(s: string, p: string) {
    |p| <= |s| && s[..|p|] == p
  }

  predicate EndsWith(s: string, p: string) {
    |p| <= |s| && s[|s| - |p|..] == p
  }

  /** `t` occurs in `s` starting at index `i`. */
  predicate OccursAt(s: string, t: string, i: int) {
    0 <= i && i + |t| <= |s| && s[i..i + |t|] == t
  }

  /** Substring containment, the `in` / `includes` test of the program. */
  predicate Contains(s: string, t: string)
    decreases |s|
  {
    StartsWith(s, t) || (|s| > 0 && Contains(s[1..], t))
  }

  lemma {:induction false} ContainsIffOccurs(s: string, t: string)
    ensures Contains(s, t) <==> exists i :: OccursAt(s, t, i)
    decreases |s|
  {
    if StartsWith(s, t) {
      assert OccursAt(s, t, 0);
    } else if |s| == 0 {
      assert |t| > 0;
    } else {
      ContainsIffOccurs(s[1..], t);
      if exists i :: OccursAt(s, t, i) {
        var i :| OccursAt(s, t, i);
        assert i != 0;
        assert s[1..][i - 1..i - 1 + |t|] == s[i..i + |t|];
        assert OccursAt(s[1..], t, i - 1);
      }
      if exists j :: OccursAt(s[1..], t, j) {
        var j :| OccursAt(s[1..], t, j);
        assert s[1..][j..j + |t|] == s[j + 1..j + 1 + |t|];
        assert OccursAt(s, t, j + 1);
      }
    }
  }

  /** A string that starts with `t` contains it. */
  lemma StartsWithContains(s: string, t: string)
    requires StartsWith(s, t)
    ensures Contains(s, t)
  {
  }

  /** Index of the first `c` in `s`. */
  function IndexOf(s: string, c: char): (r: Option<nat>)
    ensures r.None? <==> c !in s
    ensures r.Some? ==> r.value < |s| && s[r.value] == c && c !in s[..r.value]
  {
    if |s| == 0 then None
    else if s[0] == c then Some(0)
    else
      var r := IndexOf(s[1..], c);
      if r.Some? then
        assert s[..r.value + 1] == [s[0]] + s[1..][..r.value];
        Some(r.value + 1)
      else None
  }

  /** The first `c` is at `k` when it is there and not before. */
  lemma {:induction false} IndexOfAt(s: string, c: char, k: nat)
    requires k < |s| && s[k] == c && c !in s[..k]
    ensures IndexOf(s, c) == Some(k)
    decreases k
  {
    if k > 0 {
      assert s[0] == s[..k][0];
      assert s[1..][..k - 1] == s[1..k];
      assert forall i :: 0 <= i < k - 1 ==> s[1..k][i] == s[..k][i + 1];
      IndexOfAt(s[1..], c, k - 1);
    }
  }

  /** Text whose first character is missing from `s` does not occur in it. */
  lemma {:induction false} MissingFirstChar(s: string, t: string)
    requires |t| > 0 && t[0] !in s
    ensures !Contains(s, t)
    decreases |s|
  {
    if |s| > 0 {
      assert s[0] != t[0];
      MissingFirstChar(s[1..], t);
    }
  }

  /** Containment is preserved by putting text on either side. */
  lemma {:induction false} ContainsInside(a: string, t: string, b: string)
    ensures Contains(a + t + b, t)
    decreases |a|
  {
    if |a| == 0 {
      assert a + t + b == t + b;
      assert (t + b)[..|t|] == t;
    } else {
      assert (a + t + b)[1..] == a[1..] + t + b;
      ContainsInside(a[1..], t, b);
    }
  }

  /** Whatever a string contains, any string around it contains too. */
  lemma ContainsWithin(a: string, v: string, b: string, t: string)
    requires Contains(v, t)
    ensures Contains(a + v + b, t)
  {
    ContainsIffOccurs(v, t);
    var i :| OccursAt(v, t, i);
    var s := a + v + b;
    assert s[|a| + i..|a| + i + |t|] == v[i..i + |t|];
    assert OccursAt(s, t, |a| + i);
    ContainsIffOccurs(s, t);
  }

  // ---------------------------------------------------------- whitespace

  /** The `\s` class of JavaScript regular expressions restricted to ASCII.
      Python's `str.split()`/`strip()` also treat `\x1c`-`\x1f` and `\x85`
      as whitespace; those characters are not distinguished here. */
  predicate IsSpace(c: char) {
    c == ' ' || c == '\t' || c == '\n' || c == '\r' || c as int == 11 || c as int == 12
  }

  predicate AllSpace(s: string) {
    forall i :: 0 <= i < |s| ==> IsSpace(s[i])
  }

  function TrimStart(s: string): (r: string)
    ensures |r| <= |s|
    ensures |r| < |s| ==> r == s[|s| - |r|..]
    ensures |r| == |s| ==> r == s
    ensures |r| > 0 ==> !IsSpace(r[0])
    ensures AllSpace(s[..|s| - |r|])
  {
    if |s| > 0 && IsSpace(s[0]) then
      var r := TrimStart(s[1..]);
      assert s[1..][..|s[1..]| - |r|] == s[1..|s| - |r|];
      r
    else s
  }

  function TrimEnd(s: string): (r: string)
    ensures |r| <= |s|
    ensures |r| < |s| ==> r == s[..|r|]
    ensures |r| == |s| ==> r == s
    ensures |r| > 0 ==> !IsSpace(r[|r| - 1])
    ensures AllSpace(s[|r|..])
  {
    if |s| > 0 && IsSpace(s[|s| - 1]) then
      var r := TrimEnd(s[..|s| - 1]);
      assert s[..|s| - 1][|r|..] == s[|r|..|s| - 1];
      r
    else s
  }

  /** Where `Strip` cuts the string: the length of its leading whitespace. */
  function StripOffset(s: string): nat {
    |s| - |TrimStart(s)|
  }

  /** Python's `strip()` / JavaScript's `trim()` over ASCII whitespace: the
      longest infix of `s` that neither starts nor ends with whitespace. */
  function Strip(s: string): (r: string)
    ensures StripOffset(s) + |r| <= |s|
    ensures |r| > 0 ==> !IsSpace(r[0]) && !IsSpace(r[|r| - 1])
    ensures StripOffset(s) > 0 ==> r == s[StripOffset(s)..StripOffset(s) + |r|]
    ensures StripOffset(s) == 0 && |r| < |s| ==> r == s[..|r|]
    ensures StripOffset(s) == 0 && |r| == |s| ==> r == s
    ensures AllSpace(s[..StripOffset(s)]) && AllSpace(s[StripOffset(s) + |r|..])
  {
    var a := TrimStart(s);
    var r := TrimEnd(a);
    assert |a| < |s| ==> s[StripOffset(s) + |r|..] == a[|r|..];
    r
  }

  /** A string is blank when stripping leaves nothing. */
  lemma StripEmptyIffAllSpace(s: string)
    ensures Strip(s) == [] <==> AllSpace(s)
  {
    var a := TrimStart(s);
    var r := TrimEnd(a);
    var k := |s| - |a|;
    assert s == s[..k] + a;
    if r == [] {
      assert a[|r|..] == a;
      assert |a| == 0;
      assert s == s[..k];
    } else {
      assert r[0] == a[0] && a[0] == s[k];
    }
  }

  /** Python's `str.split()` with no argument / the JavaScript idiom
      `split(/\s+/).filter(w => w.length > 0)`: the maximal runs of
      non-whitespace characters, in order. */
  function Words(s: string): (r: seq<string>)
    ensures forall w :: w in r ==> |w| > 0 && forall i :: 0 <= i < |w| ==> !IsSpace(w[i])
    decreases |s|
  {
    if |s| == 0 then []
    else if IsSpace(s[0]) then Words(s[1..])
    else
      var n := WordLength(s);
      [s[..n]] + Words(s[n..])
  }

  /** Length of the leading run of non-whitespace characters. */
  function WordLength(s: string): (n: nat)
    ensures n <= |s|
    ensures forall i :: 0 <= i < n ==> !IsSpace(s[i])
    ensures n < |s| ==> IsSpace(s[n])
  {
    if |s| == 0 || IsSpace(s[0]) then 0 else 1 + WordLength(s[1..])
  }

  /** The number of places in `s` where whitespace (or the start of the
      string) is followed by a non-whitespace character: the number of
      words, counted without splitting. */
  function WordStarts(s: string): nat {
    (if |s| > 0 && !IsSpace(s[0]) then 1 else 0) + Transitions(s)
  }

  /** Positions `i >= 1` with whitespace at `i - 1` and none at `i`. */
  function Transitions(s: string): nat {
    if |s| < 2 then 0
    else (if IsSpace(s[0]) && !IsSpace(s[1]) then 1 else 0) + Transitions(s[1..])
  }

  /** The split yields one word per word start. */
  lemma {:induction false} WordsCount(s: string)
    ensures |Words(s)| == WordStarts(s)
    decreases |s|
  {
    if |s| > 0 {
      if IsSpace(s[0]) {
        WordsCount(s[1..]);
      } else {
        var n := WordLength(s);
        WordsCount(s[n..]);
        TransitionsOfWord(s, n);
      }
    }
  }

  /** Inside a leading word no transition happens; the count resumes where
      the word ends. */
  lemma {:induction false} TransitionsOfWord(s: string, n: nat)
    requires 0 < n <= |s| && (forall i :: 0 <= i < n ==> !IsSpace(s[i]))
    requires n < |s| ==> IsSpace(s[n])
    ensures Transitions(s) == WordStarts(s[n..])
    decreases n
  {
    if n > 1 {
      TransitionsOfWord(s[1..], n - 1);
      assert s[1..][n - 1..] == s[n..];
    }
  }

  /** A string made only of whitespace has no words. */
  lemma {:induction false} WordsOfBlank(s: string)
    requires AllSpace(s)
    ensures Words(s) == []
    decreases |s|
  {
    if |s| > 0 {
      WordsOfBlank(s[1..]);
    }
  }

  /** Splitting on a separator, as `str.split(sep)` / `String.split(sep)`:
      the pieces between occurrences, left to right; joining them back with
      the separator gives the original string. */
  function SplitOn(s: string, sep: string): (r: seq<string>)
    requires |sep| > 0
    ensures |r| > 0
    ensures Join(r, sep) == s
    decreases |s|
  {
    if |s| < |sep| then [s]
    else if s[..|sep|] == sep then
      var rest := SplitOn(s[|sep|..], sep);
      assert s == sep + s[|sep|..];
      [""] + rest
    else
      var rest := SplitOn(s[1..], sep);
      assert s == [s[0]] + s[1..];
      [[s[0]] + rest[0]] + rest[1..]
  }

  /** An occurrence in the tail of `s` is an occurrence in `s` one further
      on. */
  lemma OccursInTail(s: string, t: string, i: nat)
    requires |s| > 0
    ensures OccursAt(s[1..], t, i) <==> OccursAt(s, t, i + 1)
  {
    if i + |t| <= |s[1..]| {
      assert s[1..][i..i + |t|] == s[i + 1..i + 1 + |t|];
    }
  }

  /** The separator does not occur anywhere in `s` before index `n`. */
  predicate NoSepBefore(s: string, sep: string, n: int) {
    forall i :: 0 <= i < n ==> !OccursAt(s, sep, i)
  }

  /** Text in which the separator never occurs is a single piece. */
  lemma {:induction false} SplitWithoutSeparator(s: string, sep: string)
    requires |sep| > 0 && NoSepBefore(s, sep, |s|)
    ensures SplitOn(s, sep) == [s]
    decreases |s|
  {
    if |s| >= |sep| {
      assert !OccursAt(s, sep, 0);
      forall i | 0 <= i < |s[1..]|
        ensures !OccursAt(s[1..], sep, i)
      {
        OccursInTail(s, sep, i);
      }
      SplitWithoutSeparator(s[1..], sep);
      assert [s[0]] + s[1..] == s;
    }
  }

  /** A leading piece in which the separator does not start splits off
      whole. */
  lemma {:induction false} SplitOffPiece(w: string, sep: string, rest: string)
    requires |sep| > 0 && NoSepBefore(w + sep + rest, sep, |w|)
    ensures SplitOn(w + sep + rest, sep) == [w] + SplitOn(rest, sep)
    decreases |w|
  {
    var s := w + sep + rest;
    if |w| == 0 {
      assert s[..|sep|] == sep && s[|sep|..] == rest;
    } else {
      assert !OccursAt(s, sep, 0);
      assert s[1..] == w[1..] + sep + rest;
      forall i | 0 <= i < |w[1..]|
        ensures !OccursAt(s[1..], sep, i)
      {
        OccursInTail(s, sep, i);
      }
      SplitOffPiece(w[1..], sep, rest);
      assert [w[0]] + w[1..] == w;
    }
  }

  /** A separator whose first character is missing from the first `n`
      characters does not start there. */
  lemma SepCharMissing(s: string, sep: string, n: nat)
    requires |sep| > 0 && n <= |s| && sep[0] !in s[..n]
    ensures NoSepBefore(s, sep, n)
  {
    forall i | 0 <= i < n
      ensures !OccursAt(s, sep, i)
    {
      assert s[i] == s[..n][i];
    }
  }

  function Join(parts: seq<string>, sep: string): string
    decreases |parts|
  {
    if |parts| == 0 then ""
    else if |parts| == 1 then parts[0]
    else parts[0] + sep + Join(parts[1..], sep)
  }

  /** Concatenation of a sequence of strings. */
  function Concat(parts: seq<string>): (r: string)
    ensures |parts| == 0 ==> r == ""
  {
    if |parts| == 0 then "" else parts[0] + Concat(parts[1..])
  }

  // ------------------------------------------------------------- batches

  /** Concatenation of a sequence of sequences. */
  function Flatten<T>(xss: seq<seq<T>>): (r: seq<T>)
    ensures |xss| == 0 ==> r == []
  {
    if |xss| == 0 then [] else xss[0] + Flatten(xss[1..])
  }

  /** The slices `xs[i:i + b]` for `i` in `range(0, len(xs), b)`: consecutive
      batches of `b`, the last one possibly shorter, as many as the ceiling of
      `|xs| / b`. */
  function Batches<T>(xs: seq<T>, b: nat): (r: seq<seq<T>>)
    requires b > 0
    ensures Flatten(r) == xs
    ensures |r| * b >= |xs| && (|r| - 1) * b < |xs|
    ensures forall i :: 0 <= i < |r| ==> 0 < |r[i]| <= b
    ensures forall i :: 0 <= i < |r| - 1 ==> |r[i]| == b
    decreases |xs|
  {
    if |xs| == 0 then []
    else if |xs| <= b then
      assert Flatten([xs]) == xs + Flatten([xs][1..]);
      [xs]
    else
      var rest := Batches(xs[b..], b);
      var r := [xs[..b]] + rest;
      assert r[1..] == rest;
      assert xs == xs[..b] + xs[b..];
      BatchBounds(|r|, |rest|, b, |xs|);
      r
  }

  /** One more batch of `b` covers `b` more items. */
  lemma BatchBounds(k1: nat, k: nat, b: nat, n: int)
    requires k1 == k + 1
    requires k * b >= n - b && (k - 1) * b < n - b
    ensures k1 * b >= n && (k1 - 1) * b < n
  {
    assert k1 - 1 == k;
    assert k1 * b == k * b + b by { MulSucc(k, b); }
  }

  lemma MulSucc(k: nat, b: nat)
    ensures (k + 1) * b == k * b + b
  {
  }

  // ----------------------------------------------------------- decimals

  function DigitChar(d: nat): char
    requires d < 10
  {
    "0123456789"[d]
  }

  /** Decimal rendering of a natural number, as `str(n)` / `String(n)`. */
  function NatToString(n: nat): (r: string)
    ensures |r| > 0
    ensures forall i :: 0 <= i < |r| ==> '0' <= r[i] <= '9'
  {
    if n < 10 then [DigitChar(n)] else NatToString(n / 10) + [DigitChar(n % 10)]
  }

  function IntToString(i: int): (r: string)
    ensures |r| > 0
  {
    if i < 0 then "-" + NatToString(-i) else NatToString(i)
  }

  function DigitValue(c: char): nat
    requires '0' <= c <= '9'
  {
    c as int - '0' as int
  }

  /** Reading the digits back gives the number: the rendering is faithful. */
  function ParseDigits(s: string): nat
    requires forall i :: 0 <= i < |s| ==> '0' <= s[i] <= '9'
  {
    if |s| == 0 then 0 else 10 * ParseDigits(s[..|s| - 1]) + DigitValue(s[|s| - 1])
  }

  lemma {:induction false} NatToStringRoundTrip(n: nat)
    ensures ParseDigits(NatToString(n)) == n
  {
    var r := NatToString(n);
    if n >= 10 {
      NatToStringRoundTrip(n / 10);
      assert r[..|r| - 1] == NatToString(n / 10);
    }
  }

  /** Distinct numbers render differently. */
  lemma NatToStringInjective(a: nat, b: nat)
    requires NatToString(a) == NatToString(b)
    ensures a == b
  {
    NatToStringRoundTrip(a);
    NatToStringRoundTrip(b);
  }

  /** Concatenation is associative. */
  lemma AppendAssoc<T>(a: seq<T>, b: seq<T>, c: seq<T>)
    ensures a + (b + c) == (a + b) + c
  {
  }
}
