/** The document library's client-side helpers: the category a document
    falls in, the category filter, sorting, text search over file names and
    metadata, and the icon chosen for an extension. */
module DocumentFilters {
  import opened Common

  /** What the helpers read of a document. `uploadTime` is the upload date
      already converted to milliseconds. */
  datatype ClientDocument = ClientDocument(originalFileName: string, contentType: string, fileExtension: string,
                                           fileSize: int, uploadTime: int, metadata: Option<string>)

  datatype Category = Pdf | Image | Video | Audio | Spreadsheet | WordDocument | Presentation | Other

  /** `getDocumentCategory`: the first of the content-type tests that
      matches, on the lower-cased content type. */
  function CategoryOf(d: ClientDocument): (r: Category)
    ensures var t := Lower(d.contentType);
      && (r == Pdf <==> Contains(t, "pdf"))
      && (r == Image <==> !Contains(t, "pdf") && Contains(t, "image"))
      && (r == Video <==> !Contains(t, "pdf") && !Contains(t, "image") && Contains(t, "video"))
      && (r == Audio <==> !Contains(t, "pdf") && !Contains(t, "image") && !Contains(t, "video") && Contains(t, "audio"))
      && (r == Spreadsheet <==> !Contains(t, "pdf") && !Contains(t, "image") && !Contains(t, "video") &&
                                !Contains(t, "audio") && (Contains(t, "excel") || Contains(t, "spreadsheet")))
      && (r == WordDocument <==> !Contains(t, "pdf") && !Contains(t, "image") && !Contains(t, "video") &&
                                 !Contains(t, "audio") && !Contains(t, "excel") && !Contains(t, "spreadsheet") &&
                                 (Contains(t, "word") || Contains(t, "document")))
      && (r == Presentation <==> !Contains(t, "pdf") && !Contains(t, "image") && !Contains(t, "video") &&
                                 !Contains(t, "audio") && !Contains(t, "excel") && !Contains(t, "spreadsheet") &&
                                 !Contains(t, "word") && !Contains(t, "document") && Contains(t, "presentation"))
      && (r == Other <==> (!Contains(t, "pdf") && !Contains(t, "image") && !Contains(t, "video") &&
                          !Contains(t, "audio") && !Contains(t, "excel") && !Contains(t, "spreadsheet") &&
                          !Contains(t, "word") && !Contains(t, "document") && !Contains(t, "presentation")))
  {
    var t := Lower(d.contentType);
    if Contains(t, "pdf") then Pdf
    else if Contains(t, "image") then Image
    else if Contains(t, "video") then Video
    else if Contains(t, "audio") then Audio
    else if Contains(t, "excel") || Contains(t, "spreadsheet") then Spreadsheet
    else if Contains(t, "word") || Contains(t, "document") then WordDocument
    else if Contains(t, "presentation") then Presentation
    else Other
  }

  /** The elements of `s` that satisfy `p`, in their original order, as
      `Array.prototype.filter`. */
  function Keep(s: seq<ClientDocument>, p: ClientDocument -> bool): (r: seq<ClientDocument>)
    ensures |r| <= |s|
    ensures forall d :: d in r <==> d in s && p(d)
  {
    if |s| == 0 then []
    else if p(s[0]) then [s[0]] + Keep(s[1..], p)
    else Keep(s[1..], p)
  }

  /** Filtering twice with the same test is filtering once. */
  lemma {:induction false} KeepIdempotent(s: seq<ClientDocument>, p: ClientDocument -> bool)
    ensures Keep(Keep(s, p), p) == Keep(s, p)
  {
    if |s| > 0 {
      KeepIdempotent(s[1..], p);
      if p(s[0]) {
        assert ([s[0]] + Keep(s[1..], p))[1..] == Keep(s[1..], p);
      }
    }
  }

  /** When every element passes, filtering gives the sequence back. */
  lemma {:induction false} KeepAll(s: seq<ClientDocument>, p: ClientDocument -> bool)
    requires forall i :: 0 <= i < |s| ==> p(s[i])
    ensures Keep(s, p) == s
  {
    if |s| > 0 {
      KeepAll(s[1..], p);
      assert [s[0]] + s[1..] == s;
    }
  }

  /** The category picker's choice: everything, or one category. */
  datatype CategoryChoice = All | Only(category: Category)

  /** `filterDocumentsByCategory` as written: a document is shown under a
      category only when its own category is that one. */
  function FilterByCategory(docs: seq<ClientDocument>, choice: CategoryChoice): (r: seq<ClientDocument>)
    ensures choice == All ==> r == docs
    ensures choice != All ==> forall d :: d in r <==> d in docs && CategoryOf(d) == choice.category
  {
    if choice == All then docs else Keep(docs, d => CategoryOf(d) == choice.category)
  }

  /** The categories the picker offers besides "All". */
  const Offered: seq<Category> := [Pdf, Image, Video, Other]

  /** The content type the uploader gives a legacy Word file. */
  const WordContentType := "application/msword"

  /** A legacy Word upload falls in the Word-document category. */
  lemma WordCategory(d: ClientDocument)
    requires d.contentType == WordContentType
    ensures CategoryOf(d) == WordDocument
  {
    WordNamesWord(d.contentType);
    WordLetters(d.contentType);
    NoOtherKeyword(Lower(d.contentType));
  }

  /** The lower-cased Word content type names "word"... */
  lemma WordNamesWord(ct: string)
    requires ct == WordContentType
    ensures Contains(Lower(ct), "word")
  {
    var t := Lower(ct);
    assert t == WordContentType;
    assert OccursAt(t, "word", 14);
    ContainsIffOccurs(t, "word");
  }

  /** ... and lacks the letters f, g, v, u and e. */
  lemma WordLetters(ct: string)
    requires ct == WordContentType
    ensures var t := Lower(ct); 'f' !in t && 'g' !in t && 'v' !in t && 'u' !in t && 'e' !in t
  {
    var t := Lower(ct);
    assert t == WordContentType;
  }

  /** Without the letters f, g, v, u and e no keyword tested before "word"
      can occur. */
  lemma NoOtherKeyword(t: string)
    requires 'f' !in t && 'g' !in t && 'v' !in t && 'u' !in t && 'e' !in t
    ensures !Contains(t, "pdf") && !Contains(t, "image") && !Contains(t, "video")
    ensures !Contains(t, "audio") && !Contains(t, "excel") && !Contains(t, "spreadsheet")
  {
    MissingLetter(t, "pdf", 2);
    MissingLetter(t, "image", 3);
    MissingLetter(t, "video", 0);
    MissingLetter(t, "audio", 1);
    MissingLetter(t, "excel", 0);
    MissingLetter(t, "spreadsheet", 3);
  }

  /** With the filter as written, an uploaded Word document is listed under
      none of the categories the picker offers: only "All" shows it. */
  lemma WordDocumentUnlisted(d: ClientDocument)
    requires d.contentType == WordContentType
    ensures FilterByCategory([d], All) == [d]
    ensures forall c :: c in Offered ==> FilterByCategory([d], Only(c)) == []
  {
    WordCategory(d);
    forall c | c in Offered
      ensures FilterByCategory([d], Only(c)) == []
    {
    }
  }

  /** `t` does not occur in `s` when one of its characters is absent. */
  lemma MissingLetter(s: string, t: string, j: nat)
    requires j < |t| && t[j] !in s
    ensures !Contains(s, t)
  {
    ContainsIffOccurs(s, t);
    forall i | 0 <= i && i + |t| <= |s|
      ensures !OccursAt(s, t, i)
    {
      assert s[i..i + |t|][j] == s[i + j];
    }
  }

  /** The evidently intended filter: "Other" collects every document that is
      not a PDF, an image or a video, so the offered categories split the
      library between them. */
  function FilterByChoice(docs: seq<ClientDocument>, choice: CategoryChoice): (r: seq<ClientDocument>)
    ensures choice == All ==> r == docs
    ensures choice != All && choice.category != Other ==>
              forall d :: d in r <==> d in docs && CategoryOf(d) == choice.category
    ensures choice == Only(Other) ==> forall d :: d in r <==> d in docs && CategoryOf(d) !in {Pdf, Image, Video}
  {
    if choice == All then docs
    else if choice.category == Other then Keep(docs, d => CategoryOf(d) !in {Pdf, Image, Video})
    else Keep(docs, d => CategoryOf(d) == choice.category)
  }

  /** The offered category a document is listed under by the intended
      filter. */
  function Bucket(k: Category): (c: Category)
    ensures c in Offered
    ensures c == Other <==> k !in {Pdf, Image, Video}
  {
    if k in {Pdf, Image, Video} then k else Other
  }

  /** Under the intended filter a document is listed under an offered
      category exactly when that category is its bucket, so the offered
      categories split the library between them. */
  lemma ChoicesPartition(docs: seq<ClientDocument>, d: ClientDocument, c: Category)
    requires d in docs && c in Offered
    ensures d in FilterByChoice(docs, Only(c)) <==> c == Bucket(CategoryOf(d))
  {
  }

  // ------------------------------------------------------------- sorting

  datatype SortKey = ByName | ByDate | BySize | ByType | Unknown(name: string)
  datatype Order = Asc | Desc

  /** Lexicographic order on character codes. */
  predicate LexLe(a: string, b: string) {
    |a| == 0 || (|b| > 0 && (a[0] < b[0] || (a[0] == b[0] && LexLe(a[1..], b[1..]))))
  }

  lemma {:induction false} LexLeTotal(a: string, b: string)
    ensures LexLe(a, b) || LexLe(b, a)
  {
    if |a| > 0 && |b| > 0 && a[0] == b[0] {
      LexLeTotal(a[1..], b[1..]);
    }
  }

  lemma {:induction false} LexLeTrans(a: string, b: string, c: string)
    requires LexLe(a, b) && LexLe(b, c)
    ensures LexLe(a, c)
  {
    if |a| > 0 && a[0] == b[0] && b[0] == c[0] {
      LexLeTrans(a[1..], b[1..], c[1..]);
    }
  }

  /** `a` may stay before `b` when sorting by `k` ascending. */
  predicate LeBy(k: SortKey, a: ClientDocument, b: ClientDocument) {
    match k
    case ByName => LexLe(a.originalFileName, b.originalFileName)
    case ByDate => a.uploadTime <= b.uploadTime
    case BySize => a.fileSize <= b.fileSize
    case ByType => LexLe(a.contentType, b.contentType)
    case Unknown(_) => true
  }

  lemma LeByTotal(k: SortKey, a: ClientDocument, b: ClientDocument)
    ensures LeBy(k, a, b) || LeBy(k, b, a)
  {
    LexLeTotal(a.originalFileName, b.originalFileName);
    LexLeTotal(a.contentType, b.contentType);
  }

  lemma LeByTrans(k: SortKey, a: ClientDocument, b: ClientDocument, c: ClientDocument)
    requires LeBy(k, a, b) && LeBy(k, b, c)
    ensures LeBy(k, a, c)
  {
    match k
    case ByName => LexLeTrans(a.originalFileName, b.originalFileName, c.originalFileName);
    case ByType => LexLeTrans(a.contentType, b.contentType, c.contentType);
    case _ =>
  }

  predicate SortedBy(k: SortKey, s: seq<ClientDocument>) {
    forall i, j :: 0 <= i < j < |s| ==> LeBy(k, s[i], s[j])
  }

  /** Places `x` after every element not greater than it, so that among
      equal keys the later input stays later. */
  function Insert(k: SortKey, x: ClientDocument, s: seq<ClientDocument>): (r: seq<ClientDocument>)
    requires SortedBy(k, s)
    ensures multiset(r) == multiset(s) + multiset{x}
    ensures SortedBy(k, r)
  {
    if |s| == 0 then [x]
    else if !LeBy(k, s[0], x) then
      BelowSorted(k, x, s);
      [x] + s
    else
      var t := Insert(k, x, s[1..]);
      assert s == [s[0]] + s[1..];
      HeadBelowAll(k, s[0], t, s[1..], x);
      [s[0]] + t
  }

  /** An element smaller than the head of a sorted sequence may go in front. */
  lemma BelowSorted(k: SortKey, x: ClientDocument, s: seq<ClientDocument>)
    requires SortedBy(k, s) && |s| > 0 && !LeBy(k, s[0], x)
    ensures SortedBy(k, [x] + s)
  {
    LeByTotal(k, s[0], x);
    forall j | 0 <= j < |s|
      ensures LeBy(k, x, s[j])
    {
      if j > 0 {
        LeByTrans(k, x, s[0], s[j]);
      }
    }
  }

  /** A head not greater than anything in `t` keeps `[h] + t` sorted. */
  lemma HeadBelowAll(k: SortKey, h: ClientDocument, t: seq<ClientDocument>, rest: seq<ClientDocument>,
                     x: ClientDocument)
    requires SortedBy(k, t) && SortedBy(k, [h] + rest) && LeBy(k, h, x)
    requires multiset(t) == multiset(rest) + multiset{x}
    ensures SortedBy(k, [h] + t)
  {
    assert ([h] + rest)[0] == h;
    forall j | 0 <= j < |t|
      ensures LeBy(k, h, t[j])
    {
      assert t[j] in multiset(t);
      if t[j] != x {
        assert t[j] in multiset(rest);
        var i :| 0 <= i < |rest| && rest[i] == t[j];
        assert ([h] + rest)[i + 1] == rest[i];
      }
    }
  }

  /** Insertion sort by `k`: each element is inserted, in input order, after
      everything not greater than it. The contract fixes the result up to the
      order of documents with equal keys. */
  function Sort(k: SortKey, s: seq<ClientDocument>): (r: seq<ClientDocument>)
    ensures multiset(r) == multiset(s)
    ensures SortedBy(k, r)
  {
    if |s| == 0 then []
    else
      assert s == s[..|s| - 1] + [s[|s| - 1]];
      Insert(k, s[|s| - 1], Sort(k, s[..|s| - 1]))
  }

  function Reverse(s: seq<ClientDocument>): (r: seq<ClientDocument>)
    ensures |r| == |s|
    ensures forall i :: 0 <= i < |s| ==> r[i] == s[|s| - 1 - i]
  {
    if |s| == 0 then [] else Reverse(s[1..]) + [s[0]]
  }

  lemma ReverseInvolutive(s: seq<ClientDocument>)
    ensures Reverse(Reverse(s)) == s
  {
  }

  /** Reversal keeps the elements. */
  lemma {:induction false} ReverseMultiset(s: seq<ClientDocument>)
    ensures multiset(Reverse(s)) == multiset(s)
  {
    if |s| > 0 {
      ReverseMultiset(s[1..]);
      assert s == [s[0]] + s[1..];
    }
  }

  /** `sortDocuments`: a sorted copy for the four known keys, descending by
      reversing the ascending result; any other key gives an unsorted copy
      whatever the order. */
  function SortDocuments(docs: seq<ClientDocument>, k: SortKey, order: Order): (r: seq<ClientDocument>)
    ensures k.Unknown? ==> r == docs
    ensures multiset(r) == multiset(docs)
    ensures order == Asc ==> SortedBy(k, r)
    ensures order == Desc ==> forall i, j :: 0 <= i < j < |r| ==> LeBy(k, r[j], r[i])
  {
    if k.Unknown? then docs
    else
      var sorted := Sort(k, docs);
      if order == Desc then
        ReverseMultiset(sorted);
        Reverse(sorted)
      else sorted
  }

  /** For a known key the descending result is the ascending one reversed,
      and reversing it back gives the ascending one. */
  lemma DescIsReversedAsc(docs: seq<ClientDocument>, k: SortKey)
    requires !k.Unknown?
    ensures SortDocuments(docs, k, Desc) == Reverse(SortDocuments(docs, k, Asc))
    ensures Reverse(SortDocuments(docs, k, Desc)) == SortDocuments(docs, k, Asc)
  {
    ReverseInvolutive(SortDocuments(docs, k, Asc));
  }

  /** Sorting by any key keeps the library's size and contents. */
  lemma SortKeepsDocuments(docs: seq<ClientDocument>, k: SortKey, order: Order, d: ClientDocument)
    ensures |SortDocuments(docs, k, order)| == |docs|
    ensures d in SortDocuments(docs, k, order) <==> d in docs
  {
    var r := SortDocuments(docs, k, order);
    assert |multiset(r)| == |multiset(docs)|;
    assert d in r <==> d in multiset(r);
  }

  // -------------------------------------------------------------- search

  /** `parseMetadata`: no metadata for a missing or empty string, otherwise
      what the JSON parser `parse` makes of it (`None` when malformed). */
  function ParseMetadata(m: Option<string>, parse: string -> Option<Json>): (r: Option<Json>)
    ensures (m.None? || m.value == "") ==> r.None?
    ensures m.Some? && m.value != "" ==> r == parse(m.value)
  {
    if m.None? || m.value == "" then None else parse(m.value)
  }

  /** The string entries of a list of JSON values, in order. */
  function StringsOf(vs: seq<Json>): (r: seq<string>)
    ensures |r| <= |vs|
    ensures forall v :: v in r <==> JStr(v) in vs
  {
    if |vs| == 0 then []
    else if vs[0].JStr? then [vs[0].s] + StringsOf(vs[1..])
    else StringsOf(vs[1..])
  }

  function ValuesOf(ms: seq<(string, Json)>): (r: seq<Json>)
    ensures |r| == |ms|
    ensures forall i :: 0 <= i < |ms| ==> r[i] == ms[i].1
  {
    if |ms| == 0 then [] else [ms[0].1] + ValuesOf(ms[1..])
  }

  /** One-character strings, one per character, as `Object.values` gives
      for a string. */
  function Characters(s: string): (r: seq<string>)
    ensures |r| == |s|
    ensures forall i :: 0 <= i < |s| ==> r[i] == [s[i]]
  {
    if |s| == 0 then [] else [[s[0]]] + Characters(s[1..])
  }

  /** The searchable text of parsed metadata: its string values joined with
      spaces. Falsy values and non-containers have none. */
  function MetadataText(j: Option<Json>): string {
    match j
    case Some(JObj(ms)) => Join(StringsOf(ValuesOf(ms)), " ")
    case Some(JArr(items)) => Join(StringsOf(items), " ")
    case Some(JStr(s)) => Join(Characters(s), " ")
    case _ => ""
  }

  /** A document matches when the lower-cased query occurs in its lower-cased
      file name or metadata text. */
  predicate Matches(d: ClientDocument, query: string, parse: string -> Option<Json>) {
    var q := Lower(query);
    Contains(Lower(d.originalFileName), q) || Contains(Lower(MetadataText(ParseMetadata(d.metadata, parse))), q)
  }

  /** `searchDocuments`. */
  function SearchDocuments(docs: seq<ClientDocument>, query: string, parse: string -> Option<Json>): (r: seq<ClientDocument>)
    ensures query == "" ==> r == docs
    ensures query != "" ==> forall d :: d in r <==> d in docs && Matches(d, query, parse)
  {
    if query == "" then docs else Keep(docs, d => Matches(d, query, parse))
  }

  /** Filtering with two tests that agree everywhere gives the same result. */
  lemma {:induction false} KeepSame(s: seq<ClientDocument>, p: ClientDocument -> bool, p': ClientDocument -> bool)
    requires forall i :: 0 <= i < |s| ==> p(s[i]) == p'(s[i])
    ensures Keep(s, p) == Keep(s, p')
  {
    if |s| > 0 {
      KeepSame(s[1..], p, p');
    }
  }

  /** Search ignores the case of the query. */
  lemma SearchIgnoresQueryCase(docs: seq<ClientDocument>, query: string, parse: string -> Option<Json>)
    ensures SearchDocuments(docs, Lower(query), parse) == SearchDocuments(docs, query, parse)
  {
    LowerIdempotent(query);
    if query != "" {
      KeepSame(docs, d => Matches(d, Lower(query), parse), d => Matches(d, query, parse));
    }
  }

  /** Searching the result again with the same query changes nothing. */
  lemma SearchIdempotent(docs: seq<ClientDocument>, query: string, parse: string -> Option<Json>)
    ensures SearchDocuments(SearchDocuments(docs, query, parse), query, parse) == SearchDocuments(docs, query, parse)
  {
    if query != "" {
      KeepIdempotent(docs, d => Matches(d, query, parse));
    }
  }

  /** Each joined part sits somewhere inside the joined string. */
  lemma {:induction false} JoinHasPiece(parts: seq<string>, sep: string, i: nat)
    requires i < |parts|
    ensures exists a, b :: Join(parts, sep) == a + parts[i] + b
  {
    if |parts| == 1 {
      assert Join(parts, sep) == "" + parts[0] + "";
    } else if i == 0 {
      assert Join(parts, sep) == "" + parts[0] + (sep + Join(parts[1..], sep));
    } else {
      JoinHasPiece(parts[1..], sep, i - 1);
      var a, b :| Join(parts[1..], sep) == a + parts[1..][i - 1] + b;
      assert Join(parts, sep) == (parts[0] + sep + a) + parts[i] + b;
    }
  }

  /** A string value of an object's metadata that contains the query makes
      the document match, even when the file name does not. */
  lemma MetadataValueMatches(d: ClientDocument, query: string, parse: string -> Option<Json>,
                             ms: seq<(string, Json)>, v: string)
    requires d.metadata.Some? && d.metadata.value != "" && parse(d.metadata.value) == Some(JObj(ms))
    requires JStr(v) in ValuesOf(ms) && Contains(Lower(v), Lower(query))
    ensures Matches(d, query, parse)
  {
    var parts := StringsOf(ValuesOf(ms));
    assert v in parts;
    var i :| 0 <= i < |parts| && parts[i] == v;
    JoinHasPiece(parts, " ", i);
    var a, b :| Join(parts, " ") == a + v + b;
    LowerConcat(a + v, b);
    LowerConcat(a, v);
    ContainsWithin(Lower(a), Lower(v), Lower(b), Lower(query));
  }

  // ---------------------------------------------------------------- icons

  /** `getFileIcon`, on the lower-cased extension. */
  function FileIcon(extension: string): (r: string)
    ensures r in {"pdf", "image", "doc", "xls", "ppt", "video", "file"}
    ensures var e := Lower(extension);
      && (r == "pdf" <==> e == "pdf")
      && (r == "image" <==> e in {"jpg", "jpeg", "png", "gif", "svg"})
      && (r == "doc" <==> e in {"doc", "docx"})
      && (r == "xls" <==> e in {"xls", "xlsx"})
      && (r == "ppt" <==> e in {"ppt", "pptx"})
      && (r == "video" <==> e in {"mp4", "mov", "avi"})
  {
    var e := Lower(extension);
    if e == "pdf" then "pdf"
    else if e in {"jpg", "jpeg", "png", "gif", "svg"} then "image"
    else if e in {"doc", "docx"} then "doc"
    else if e in {"xls", "xlsx"} then "xls"
    else if e in {"ppt", "pptx"} then "ppt"
    else if e in {"mp4", "mov", "avi"} then "video"
    else "file"
  }

  /** The icon does not depend on the extension's case. */
  lemma FileIconIgnoresCase(extension: string)
    ensures FileIcon(Lower(extension)) == FileIcon(extension)
  {
    LowerIdempotent(extension);
  }
}
