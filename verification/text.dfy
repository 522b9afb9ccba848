/** The client's small text helpers: tag stripping, truncation, the summary
    preview, word counts, initials, and relative times. Two files define a
    `truncateText`; both are here, as `TruncateSummary` and `TruncateLabel`. */
module TextUtils {
  import opened Common

  /** No `<` is followed, anywhere later, by a `>`: nothing that looks like
      a tag is left. */
  predicate NoTag(s: string) {
    forall i, j :: 0 <= i < j < |s| && s[i] == '<' ==> s[j] != '>'
  }

  // ------------------------------------------------------------------ tags

  /** `stripHtml`, the replacement of `/<[^>]*>/g` by nothing: each `<` up to
      the next `>` goes; a `<` with no `>` after it stays. */
  function StripHtml(s: string): (r: string)
    ensures |r| <= |s|
    ensures '<' !in s ==> r == s
    ensures NoTag(r)
    decreases |s|
  {
    if |s| == 0 then ""
    else if s[0] == '<' then
      match IndexOf(s, '>')
      case Some(j) => StripHtml(s[j + 1..])
      case None => s
    else
      var t := StripHtml(s[1..]);
      assert s == [s[0]] + s[1..];
      [s[0]] + t
  }

  /** A string without tags is left as it is. */
  lemma {:induction false} StripHtmlKeepsPlain(s: string)
    requires NoTag(s)
    ensures StripHtml(s) == s
    decreases |s|
  {
    if |s| > 0 && s[0] != '<' {
      StripHtmlKeepsPlain(s[1..]);
      assert s == [s[0]] + s[1..];
    } else if |s| > 0 {
      assert forall j :: 0 < j < |s| ==> s[j] != '>';
      assert '>' !in s;
    }
  }

  /** Stripping twice is stripping once. */
  lemma StripHtmlIdempotent(s: string)
    ensures StripHtml(StripHtml(s)) == StripHtml(s)
  {
    StripHtmlKeepsPlain(StripHtml(s));
  }

  /** A tag around text disappears and the text stays. */
  lemma {:induction false} StripHtmlDropsTag(tag: string, rest: string)
    requires '>' !in tag
    ensures StripHtml("<" + tag + ">" + rest) == StripHtml(rest)
  {
    var s := "<" + tag + ">" + rest;
    assert s[|tag| + 1] == '>';
    assert '>' !in s[..|tag| + 1] by {
      assert s[..|tag| + 1] == "<" + tag;
    }
    var j := IndexOf(s, '>');
    assert j == Some(|tag| + 1);
    assert s[|tag| + 2..] == rest;
  }

  /** The tag removal used for word counts, `/<[^>]*>?/gm`: the closing `>`
      is optional, so a `<` with no `>` after it takes the rest of the
      text with it. */
  function StripTagsLoose(s: string): (r: string)
    ensures |r| <= |s|
    ensures '<' !in r
    ensures '<' !in s ==> r == s
    decreases |s|
  {
    if |s| == 0 then ""
    else if s[0] == '<' then
      match IndexOf(s, '>')
      case Some(j) => StripTagsLoose(s[j + 1..])
      case None => ""
    else
      var t := StripTagsLoose(s[1..]);
      assert s == [s[0]] + s[1..];
      [s[0]] + t
  }

  // ------------------------------------------------------------ truncation

  const Ellipsis := "..."

  /** `truncateText` of the summary helpers: empty stays empty, short text is
      kept, longer text is cut to `maxLength` characters plus an ellipsis. A
      negative length cuts everything, as `substring` does. */
  function TruncateSummary(text: string, maxLength: int): (r: string)
    ensures text == "" ==> r == ""
    ensures text != "" && |text| <= maxLength ==> r == text
    ensures text != "" && |text| > maxLength ==>
              |r| == (if maxLength < 0 then 0 else maxLength) + 3 && EndsWith(r, Ellipsis) && StartsWith(text, r[..|r| - 3])
  {
    if text == "" then ""
    else if |text| <= maxLength then text
    else
      var n := if maxLength < 0 then 0 else maxLength;
      var r := text[..n] + Ellipsis;
      assert r[..|r| - 3] == text[..n];
      assert r[|r| - 3..] == Ellipsis;
      r
  }

  /** `truncateText` of the shared helpers: short text is kept; longer text
      is cut, stripped of surrounding whitespace, and given an ellipsis. */
  function TruncateLabel(text: string, maxLength: int): (r: string)
    ensures |text| <= maxLength ==> r == text
    ensures |text| > maxLength ==> |r| <= (if maxLength < 0 then 0 else maxLength) + 3 && EndsWith(r, Ellipsis)
    ensures |text| > maxLength ==> r[..|r| - 3] == Strip(text[..if maxLength < 0 then 0 else maxLength])
  {
    if |text| <= maxLength then text
    else
      var r := Strip(text[..if maxLength < 0 then 0 else maxLength]) + Ellipsis;
      assert r[|r| - 3..] == Ellipsis;
      r
  }

  /** Either truncation only ever keeps a prefix of the text (up to the
      whitespace the label form strips), so an untruncated result is the
      text itself. */
  lemma TruncationsAgreeOnShortText(text: string, maxLength: int)
    requires text != "" && |text| <= maxLength
    ensures TruncateSummary(text, maxLength) == TruncateLabel(text, maxLength) == text
  {
  }

  // -------------------------------------------------------------- preview

  predicate SentenceEnd(c: char) { c == '.' || c == '!' || c == '?' }

  /** The first place a sentence ends: an index `p >= 1` where a whitespace
      character follows one of `.`, `!` or `?`. */
  function FirstBreak(s: string): (r: Option<nat>)
    ensures r.Some? ==> 1 <= r.value < |s| && SentenceEnd(s[r.value - 1]) && IsSpace(s[r.value])
    ensures r.Some? ==> forall p :: 1 <= p < r.value ==> !(SentenceEnd(s[p - 1]) && IsSpace(s[p]))
    ensures r.None? ==> forall p :: 1 <= p < |s| ==> !(SentenceEnd(s[p - 1]) && IsSpace(s[p]))
    decreases |s|
  {
    if |s| < 2 then None
    else if SentenceEnd(s[0]) && IsSpace(s[1]) then Some(1)
    else
      var r := FirstBreak(s[1..]);
      if r.Some? then Some(r.value + 1) else None
  }

  /** Length of the leading whitespace run. */
  function SpaceRun(s: string): (n: nat)
    ensures n <= |s|
    ensures forall i :: 0 <= i < n ==> IsSpace(s[i])
    ensures n < |s| ==> !IsSpace(s[n])
  {
    if |s| == 0 || !IsSpace(s[0]) then 0 else 1 + SpaceRun(s[1..])
  }

  /** `split(/(?<=[.!?])\s+/)`: the text cut at every whitespace run that
      follows a sentence end, the runs themselves dropped. */
  function Sentences(s: string): (r: seq<string>)
    ensures |r| >= 1
    ensures forall i :: 0 <= i < |r| - 1 ==> |r[i]| > 0 && SentenceEnd(r[i][|r[i]| - 1])
    decreases |s|
  {
    match FirstBreak(s)
    case None => [s]
    case Some(p) =>
      var q := p + SpaceRun(s[p..]);
      [s[..p]] + Sentences(s[q..])
  }

  /** `getSummaryPreview`: the first `maxSentences` sentences of the text
      without tags, joined with single spaces and cut at 200 characters. */
  function SummaryPreview(text: string, maxSentences: int): (r: string)
    ensures text == "" ==> r == ""
    ensures |r| <= 203
    ensures text != "" ==>
              var ss := Sentences(StripHtml(text));
              var joined := Join(ss[..SliceEnd(maxSentences, |ss|)], " ");
              && (|joined| <= 200 ==> r == joined)
              && (|joined| > 200 ==> r == joined[..200] + Ellipsis)
  {
    if text == "" then ""
    else
      var sentences := Sentences(StripHtml(text));
      TruncateSummary(Join(sentences[..SliceEnd(maxSentences, |sentences|)], " "), 200)
  }

  /** Where `slice(0, Math.min(k, len))` ends on an array of `len` items: at
      `k` items for a count that fits, at all of them for a larger one, and
      for a negative count that many items before the end. */
  function SliceEnd(k: int, len: nat): (r: nat)
    ensures r <= len
    ensures 0 <= k <= len ==> r == k
    ensures k > len ==> r == len
    ensures k < 0 ==> r == if len + k > 0 then len + k else 0
  {
    if k >= 0 then (if k < len then k else len)
    else if len + k > 0 then len + k else 0
  }

  /** A short, tag-free text of a single sentence is its own preview. */
  lemma SingleSentencePreview(text: string)
    requires text != "" && '<' !in text && |text| <= 200 && FirstBreak(text).None?
    ensures SummaryPreview(text, 2) == text
  {
    assert Sentences(text) == [text];
  }

  // ------------------------------------------------------------ badges

  /** `getLengthBadgeColor`. */
  function LengthBadgeColor(length: string): (r: string)
    ensures length == "short" ==> r == "bg-green-100 text-green-800"
    ensures length == "medium" ==> r == "bg-yellow-100 text-yellow-800"
    ensures length == "long" ==> r == "bg-blue-100 text-blue-800"
    ensures length !in {"short", "medium", "long"} ==> r == "bg-gray-100 text-gray-800"
  {
    if length == "short" then "bg-green-100 text-green-800"
    else if length == "medium" then "bg-yellow-100 text-yellow-800"
    else if length == "long" then "bg-blue-100 text-blue-800"
    else "bg-gray-100 text-gray-800"
  }

  /** The three known lengths get three different colours, none of them the
      fallback. */
  lemma BadgeColorsDistinct(a: string, b: string)
    requires a in {"short", "medium", "long"} && b in {"short", "medium", "long"} && a != b
    ensures LengthBadgeColor(a) != LengthBadgeColor(b)
    ensures LengthBadgeColor(a) != LengthBadgeColor("")
  {
  }

  /** `formatWordCount` below a thousand. */
  function FormatWordCount(count: int): (r: string)
    requires count < 1000
    ensures EndsWith(r, " words")
  {
    var r := IntToString(count) + " words";
    assert r[|r| - 6..] == " words";
    r
  }

  /** The number in the label reads back as the count. */
  lemma WordCountReadsBack(count: nat)
    requires count < 1000
    ensures var r := FormatWordCount(count);
            var digits := r[..|r| - 6];
            (forall i :: 0 <= i < |digits| ==> '0' <= digits[i] <= '9') && ParseDigits(digits) == count
  {
    var r := FormatWordCount(count);
    assert r[..|r| - 6] == NatToString(count);
    NatToStringRoundTrip(count);
  }

  // ------------------------------------------------------------ word count

  /** `countWords`: the whitespace-separated tokens left after tag removal. */
  function CountWords(text: string): (n: nat)
    ensures n <= |text|
    ensures n == WordStarts(StripTagsLoose(text))
  {
    WordsBound(StripTagsLoose(text));
    WordsCount(StripTagsLoose(text));
    |Words(StripTagsLoose(text))|
  }

  /** There are never more words than characters. */
  lemma {:induction false} WordsBound(s: string)
    ensures |Words(s)| <= |s|
    decreases |s|
  {
    if |s| > 0 {
      if IsSpace(s[0]) {
        WordsBound(s[1..]);
      } else {
        WordsBound(s[WordLength(s)..]);
      }
    }
  }

  /** The characters that are not whitespace, in order. */
  function NonSpace(s: string): (r: string)
    ensures forall i :: 0 <= i < |r| ==> !IsSpace(r[i])
  {
    if |s| == 0 then "" else if IsSpace(s[0]) then NonSpace(s[1..]) else [s[0]] + NonSpace(s[1..])
  }

  /** The words put back together are exactly the non-whitespace
      characters: nothing is lost or invented by the split. */
  lemma {:induction false} WordsCoverText(s: string)
    ensures Concat(Words(s)) == NonSpace(s)
    decreases |s|
  {
    if |s| > 0 {
      if IsSpace(s[0]) {
        WordsCoverText(s[1..]);
      } else {
        var n := WordLength(s);
        WordsCoverText(s[n..]);
        NonSpaceOfWord(s, n);
      }
    }
  }

  lemma {:induction false} NonSpaceOfWord(s: string, n: nat)
    requires n <= |s| && forall i :: 0 <= i < n ==> !IsSpace(s[i])
    ensures NonSpace(s) == s[..n] + NonSpace(s[n..])
    decreases n
  {
    if n > 0 {
      NonSpaceOfWord(s[1..], n - 1);
      assert s[1..][..n - 1] == s[1..n];
      assert s[1..][n - 1..] == s[n..];
      assert s[..n] == [s[0]] + s[1..n];
    }
  }

  /** Blank text has no words. */
  lemma CountWordsOfBlank(text: string)
    requires AllSpace(text)
    ensures CountWords(text) == 0
  {
    assert '<' !in text by {
      assert forall i :: 0 <= i < |text| ==> text[i] != '<';
    }
    WordsOfBlank(text);
  }

  // -------------------------------------------------------------- initials

  /** Upper-cased first characters of the parts, as
      `part[0]?.toUpperCase() || ""`. */
  function FirstLetters(parts: seq<string>): (r: string)
    ensures |r| <= |parts|
    ensures forall p :: p in parts && |p| > 0 ==> UpperChar(p[0]) in r
    ensures |r| == |NonEmptyPieces(parts)|
    ensures forall i :: 0 <= i < |r| ==> r[i] == UpperChar(NonEmptyPieces(parts)[i][0])
  {
    if |parts| == 0 then ""
    else (if |parts[0]| > 0 then [UpperChar(parts[0][0])] else "") + FirstLetters(parts[1..])
  }

  /** The pieces that have a first character, in order. */
  function NonEmptyPieces(parts: seq<string>): (r: seq<string>)
    ensures forall i :: 0 <= i < |r| ==> |r[i]| > 0
  {
    if |parts| == 0 then []
    else (if |parts[0]| > 0 then [parts[0]] else []) + NonEmptyPieces(parts[1..])
  }

  /** `getInitials`: the upper-cased first letters of the parts between
      single spaces, at most two of them. Empty parts (from doubled, leading
      or trailing spaces) contribute nothing, so the letters are those of
      the first two non-empty parts. */
  function Initials(name: string): (r: string)
    ensures name == "" ==> r == ""
    ensures |r| <= 2
    ensures var ne := NonEmptyPieces(SplitOn(name, " "));
            && |r| == (if |ne| < 2 then |ne| else 2)
            && forall i :: 0 <= i < |r| ==> r[i] == UpperChar(ne[i][0])
    ensures |name| > 0 && name[0] != ' ' ==> |r| >= 1 && r[0] == UpperChar(name[0])
  {
    if name == "" then ""
    else
      var parts := SplitOn(name, " ");
      var letters := FirstLetters(parts);
      FirstPart(name);
      if |letters| <= 2 then letters else letters[..2]
  }

  /** The first piece of a split starts with the text's first character
      when that is not the separator. */
  lemma FirstPart(name: string)
    requires |name| > 0
    ensures var parts := SplitOn(name, " ");
            name[0] != ' ' ==> |parts[0]| > 0 && parts[0][0] == name[0]
  {
  }

  /** "Ada Lovelace" gives "AL": a first and last name without inner spaces
      give their two upper-cased first letters. */
  lemma TwoWordInitials(first: string, last: string)
    requires |first| > 0 && |last| > 0 && ' ' !in first && ' ' !in last
    ensures Initials(first + " " + last) == [UpperChar(first[0]), UpperChar(last[0])]
  {
    assert (first + " " + last)[..|first|] == first;
    SepCharMissing(first + " " + last, " ", |first|);
    SplitOffPiece(first, " ", last);
    assert last[..|last|] == last;
    SepCharMissing(last, " ", |last|);
    SplitWithoutSeparator(last, " ");
    var parts := SplitOn(first + " " + last, " ");
    assert parts == [first, last];
    assert parts[1..] == [last];
    assert FirstLetters([last]) == [UpperChar(last[0])];
  }

  // ---------------------------------------------------------- relative time

  /** How long ago something happened, in the largest unit under its
      limit. */
  datatype Ago = JustNow | Minutes(n: int) | Hours(n: int) | Days(n: int) | Older

  /** The bucketing of `formatRelativeTime`, for an elapsed time in
      milliseconds. Flooring division by a positive divisor is Dafny's `/`. */
  function AgoOf(elapsedMs: int): (r: Ago)
    ensures r == JustNow <==> elapsedMs < 60000
    ensures r.Minutes? ==> 1 <= r.n < 60 && r.n * 60000 <= elapsedMs < (r.n + 1) * 60000
    ensures r.Hours? ==> 1 <= r.n < 24 && r.n * 3600000 <= elapsedMs < (r.n + 1) * 3600000
    ensures r.Days? ==> 1 <= r.n < 30 && r.n * 86400000 <= elapsedMs < (r.n + 1) * 86400000
    ensures r == Older <==> elapsedMs >= 30 * 86400000
  {
    var secs := elapsedMs / 1000;
    var mins := secs / 60;
    var hours := mins / 60;
    var days := hours / 24;
    if secs < 60 then JustNow
    else if mins < 60 then Minutes(mins)
    else if hours < 24 then Hours(hours)
    else if days < 30 then Days(days)
    else Older
  }

  /** The unit count `AgoOf` reports is the elapsed time divided by the
      unit, in whole units. */
  lemma AgoCounts(e: int)
    ensures AgoOf(e).Minutes? ==> AgoOf(e).n == e / 60000
    ensures AgoOf(e).Hours? ==> AgoOf(e).n == e / 3600000
    ensures AgoOf(e).Days? ==> AgoOf(e).n == e / 86400000
  {
    var r := AgoOf(e);
    if r.Minutes? { DivUnique(e, 60000, r.n); }
    if r.Hours? { DivUnique(e, 3600000, r.n); }
    if r.Days? { DivUnique(e, 86400000, r.n); }
  }

  /** `q` is `e / d` when `e` lies between `q` and `q + 1` multiples of `d`. */
  lemma DivUnique(e: int, d: int, q: int)
    requires d > 0 && q * d <= e < (q + 1) * d
    ensures e / d == q
  {
    var k := e / d;
    assert k * d <= e < (k + 1) * d;
    MulMonotone(k + 1, q, d);
    MulMonotone(q + 1, k, d);
  }

  lemma MulMonotone(a: int, b: int, d: int)
    requires d > 0
    ensures a <= b ==> a * d <= b * d
  {
  }

  function Plural(n: int): string { if n == 1 then "" else "s" }

  /** `formatRelativeTime` with the current time `now` as a parameter; a
      missing date gives the empty string, and dates a month or more back
      are rendered by `formatDate`. */
  function FormatRelativeTime(date: Option<int>, now: int, formatDate: int -> string): (r: string)
    ensures date.None? ==> r == ""
    ensures date.Some? && now - date.value < 60000 ==> r == "just now"
    ensures date.Some? && now - date.value >= 30 * 86400000 ==> r == formatDate(date.value)
    ensures date.Some? && 60000 <= now - date.value < 3600000 ==>
              var n := (now - date.value) / 60000;
              r == IntToString(n) + " minute" + Plural(n) + " ago"
    ensures date.Some? && 3600000 <= now - date.value < 86400000 ==>
              var n := (now - date.value) / 3600000;
              r == IntToString(n) + " hour" + Plural(n) + " ago"
    ensures date.Some? && 86400000 <= now - date.value < 30 * 86400000 ==>
              var n := (now - date.value) / 86400000;
              r == IntToString(n) + " day" + Plural(n) + " ago"
  {
    if date.None? then ""
    else
      AgoCounts(now - date.value);
      match AgoOf(now - date.value)
      case JustNow => "just now"
      case Minutes(n) => IntToString(n) + " minute" + Plural(n) + " ago"
      case Hours(n) => IntToString(n) + " hour" + Plural(n) + " ago"
      case Days(n) => IntToString(n) + " day" + Plural(n) + " ago"
      case Older => formatDate(date.value)
  }

  /** A date in the future reads "just now". */
  lemma FutureIsJustNow(date: int, now: int, formatDate: int -> string)
    requires date > now
    ensures FormatRelativeTime(Some(date), now, formatDate) == "just now"
  {
  }

  /** Exactly one minute back reads "1 minute ago"; two minutes read
      "2 minutes ago". */
  lemma MinuteWording(now: int, formatDate: int -> string)
    ensures FormatRelativeTime(Some(now - 60000), now, formatDate) == "1 minute ago"
    ensures FormatRelativeTime(Some(now - 120000), now, formatDate) == "2 minutes ago"
  {
    assert AgoOf(now - (now - 60000)) == Minutes(1);
    assert IntToString(1) == "1";
    assert "1" + " minute" + Plural(1) + " ago" == "1 minute ago";
    assert AgoOf(now - (now - 120000)) == Minutes(2);
    assert IntToString(2) == "2";
    assert "2" + " minute" + Plural(2) + " ago" == "2 minutes ago";
  }
}
