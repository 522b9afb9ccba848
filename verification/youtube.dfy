/** The YouTube helpers of the AI service: finding the video id in a link,
    cutting a transcript into documents, and grouping speech-to-text
    segments into chunks. */
module YouTube {
  import opened Common

  // ------------------------------------------------------------ video ids

  /** What `urlparse` makes of a link, with the query already split into
      named parameters by `parse_qs` (each name with its values in order). */
  datatype Url = Url(netloc: string, path: string, query: map<string, seq<string>>)

  predicate IsLongHost(netloc: string) {
    netloc == "youtube.com" || netloc == "www.youtube.com"
  }

  /** `path.split('/')` has a third piece whenever the path starts with a
      slash, one path segment and another slash. */
  lemma {:induction false} ThirdPieceAfter(seg: string, rest: string)
    requires '/' !in seg
    ensures SplitOn("/" + seg + "/" + rest, "/") == ["", seg] + SplitOn(rest, "/")
  {
    var s := "/" + seg + "/" + rest;
    assert s == "" + "/" + (seg + "/" + rest);
    SplitOffPiece("", "/", seg + "/" + rest);
    assert (seg + "/" + rest)[..|seg|] == seg;
    SepCharMissing(seg + "/" + rest, "/", |seg|);
    SplitOffPiece(seg, "/", rest);
  }

  /** The third piece of `path.split('/')` for a path "/<seg>/...". */
  function ThirdPiece(path: string, seg: string): (r: string)
    requires '/' !in seg && StartsWith(path, "/" + seg + "/")
    ensures |SplitOn(path, "/")| > 2 && r == SplitOn(path, "/")[2]
    ensures '/' !in r
  {
    var n := |seg| + 2;
    assert path == "/" + seg + "/" + path[n..];
    ThirdPieceAfter(seg, path[n..]);
    var pieces := SplitOn(path[n..], "/");
    PieceHasNoSlash(path[n..]);
    pieces[0]
  }

  /** The first piece of a split holds no separator. */
  lemma {:induction false} PieceHasNoSlash(s: string)
    ensures '/' !in SplitOn(s, "/")[0]
    decreases |s|
  {
    if |s| < 1 {
    } else if s[..1] == "/" {
    } else {
      PieceHasNoSlash(s[1..]);
      assert s[0] != '/' by {
        assert s[..1] == [s[0]];
      }
    }
  }

  /** `extract_video_id`: a `/watch` link gives its `v` parameter, an
      `/embed/` or `/v/` link the path segment after it, a `youtu.be` link
      its path without the leading slash; anything else, including a
      `/watch` link without `v`, gives nothing. */
  function ExtractVideoId(url: Url): (r: Option<string>)
    ensures IsLongHost(url.netloc) && url.path == "/watch" ==>
              (r.Some? <==> "v" in url.query && |url.query["v"]| > 0)
    ensures IsLongHost(url.netloc) && url.path == "/watch" && r.Some? ==> r.value == url.query["v"][0]
    ensures IsLongHost(url.netloc) && url.path != "/watch" ==>
              (r.Some? <==> StartsWith(url.path, "/embed/") || StartsWith(url.path, "/v/"))
    ensures IsLongHost(url.netloc) && r.Some? && url.path != "/watch" ==>
              |SplitOn(url.path, "/")| > 2 && r.value == SplitOn(url.path, "/")[2] && '/' !in r.value
    ensures url.netloc == "youtu.be" ==> r == Some(if |url.path| > 0 then url.path[1..] else "")
    ensures !IsLongHost(url.netloc) && url.netloc != "youtu.be" ==> r.None?
  {
    if IsLongHost(url.netloc) then
      if url.path == "/watch" then
        // a missing `v` raises inside the try block, which answers None
        if "v" in url.query && |url.query["v"]| > 0 then Some(url.query["v"][0]) else None
      else if StartsWith(url.path, "/embed/") then
        assert '/' !in "embed";
        Some(ThirdPiece(url.path, "embed"))
      else if StartsWith(url.path, "/v/") then
        assert '/' !in "v";
        Some(ThirdPiece(url.path, "v"))
      else None
    else if url.netloc == "youtu.be" then
      Some(if |url.path| > 0 then url.path[1..] else "")
    else None
  }

  /** The link forms that YouTube hands out for a video id. */
  function WatchUrl(id: string): Url {
    Url("www.youtube.com", "/watch", map["v" := [id]])
  }

  function EmbedUrl(id: string): Url {
    Url("youtube.com", "/embed/" + id, map[])
  }

  function ShortUrl(id: string): Url {
    Url("youtu.be", "/" + id, map[])
  }

  /** Every link form gives back the id it was made from; an embed id must
      be a single path segment. */
  lemma VideoIdRoundTrip(id: string)
    ensures ExtractVideoId(WatchUrl(id)) == Some(id)
    ensures ExtractVideoId(ShortUrl(id)) == Some(id)
    ensures '/' !in id ==> ExtractVideoId(EmbedUrl(id)) == Some(id)
  {
    assert ("/" + id)[1..] == id;
    if '/' !in id {
      var p := "/embed/" + id;
      assert p[..7] == "/embed/";
      assert p == "/" + "embed" + "/" + id;
      assert '/' !in "embed";
      ThirdPieceAfter("embed", id);
      assert id[..|id|] == id;
      SepCharMissing(id, "/", |id|);
      SplitWithoutSeparator(id, "/");
    }
  }

  // ------------------------------------------------- transcript documents

  /** Transcripts longer than this many characters are cut up. */
  const SplitThreshold := 15000
  /** About ten minutes of English speech at 750 characters a minute. */
  const CharsPerSegment := 750 * 10

  /** What a document made from a video is. */
  datatype Part =
    | Whole                  // the full transcript
    | Numbered(segment: nat) // one numbered slice of a long transcript
    | StartingAt(start: real) // a group of speech-to-text segments
    | Description            // the video's description

  datatype Doc = Doc(content: string, part: Part)

  function SegmentCount(n: nat): (k: nat)
    ensures k >= 1
    ensures n > SplitThreshold ==> k >= 2
  {
    if n / CharsPerSegment > 1 then n / CharsPerSegment else 1
  }

  /** `count` consecutive slices of `size` characters, numbered from
      `first`. */
  function Slices(t: string, size: nat, count: nat, first: nat): (r: seq<Doc>)
    requires count * size <= |t|
    ensures |r| == count
    ensures forall i :: 0 <= i < count ==> |r[i].content| == size && r[i].part == Numbered(first + i)
  {
    if count == 0 then []
    else
      MulSucc(count - 1, size);
      [Doc(t[..size], Numbered(first))] + Slices(t[size..], size, count - 1, first + 1)
  }

  function Contents(docs: seq<Doc>): (r: seq<string>)
    ensures |r| == |docs|
    ensures forall i :: 0 <= i < |docs| ==> r[i] == docs[i].content
  {
    if |docs| == 0 then [] else [docs[0].content] + Contents(docs[1..])
  }

  /** Slice `i` is `t[i * size:min((i + 1) * size, len(t))]`, as the loop
      cuts it. */
  lemma {:induction false} SliceAt(t: string, size: nat, count: nat, first: nat, i: nat)
    requires count * size <= |t| && i < count
    ensures (i + 1) * size <= |t|
    ensures Slices(t, size, count, first)[i].content == t[i * size..(i + 1) * size]
  {
    MulMono(size, i + 1, count);
    if i > 0 {
      MulSucc(count - 1, size);
      SliceAt(t[size..], size, count - 1, first + 1, i - 1);
      var lo, hi := (i - 1) * size, i * size;
      assert hi == lo + size by { MulSucc(i - 1, size); }
      assert (i + 1) * size == hi + size by { MulSucc(i, size); }
      DropSlice(t, size, lo, hi);
    }
  }

  /** A slice of what follows the first `k` characters. */
  lemma DropSlice(t: string, k: nat, lo: nat, hi: nat)
    requires lo <= hi && k + hi <= |t|
    ensures t[k..][lo..hi] == t[k + lo..k + hi]
  {
  }

  /** Glued back together, the slices are the first `count * size`
      characters. */
  lemma {:induction false} SlicesCover(t: string, size: nat, count: nat, first: nat)
    requires count * size <= |t|
    ensures Flatten(Contents(Slices(t, size, count, first))) == t[..count * size]
  {
    if count > 0 {
      MulSucc(count - 1, size);
      var r := Slices(t, size, count, first);
      assert r[1..] == Slices(t[size..], size, count - 1, first + 1);
      assert Contents(r)[1..] == Contents(r[1..]);
      SlicesCover(t[size..], size, count - 1, first + 1);
      assert t[..count * size] == t[..size] + t[size..][..(count - 1) * size];
    }
  }

  /** The documents made from a transcript: a short one whole, a long one
      in `max(1, len // 7500)` equal slices of `len // count` characters,
      numbered from 1. */
  function TranscriptDocs(t: string): (r: seq<Doc>)
    ensures |t| <= SplitThreshold ==> r == [Doc(t, Whole)]
    ensures |t| > SplitThreshold ==> |r| == SegmentCount(|t|) >= 2 && |r| * (|t| / |r|) <= |t|
    ensures |t| > SplitThreshold ==>
              forall i :: 0 <= i < |r| ==> |r[i].content| == |t| / |r| && r[i].part == Numbered(i + 1)
  {
    if |t| > SplitThreshold then
      var count := SegmentCount(|t|);
      var size := |t| / count;
      Slices(t, size, count, 1)
    else [Doc(t, Whole)]
  }

  /** Nothing of a long transcript is reordered or repeated: the slices in
      order are the transcript with its last `len % count` characters cut
      off. */
  lemma LongTranscriptDropsRemainder(t: string)
    requires |t| > SplitThreshold
    ensures var r := TranscriptDocs(t);
            Flatten(Contents(r)) + t[|t| - |t| % |r|..] == t && |t| % |r| < |r|
  {
    var count := SegmentCount(|t|);
    var size := |t| / count;
    SlicesCover(t, size, count, 1);
    assert count * size == |t| - |t| % count;
  }

  /** Each slice of a long transcript holds at least the 7500 characters of
      ten minutes of speech. */
  lemma SlicesAtLeastTenMinutes(t: string)
    requires |t| > SplitThreshold
    ensures forall d :: d in TranscriptDocs(t) ==> |d.content| >= CharsPerSegment
  {
    var count := SegmentCount(|t|);
    var size := |t| / count;
    assert count * CharsPerSegment <= |t|;
    if size < CharsPerSegment {
      assert count * size <= count * (CharsPerSegment - 1) by {
        MulMono(count, size, CharsPerSegment - 1);
      }
      assert false;
    }
  }

  lemma MulMono(k: nat, a: nat, b: nat)
    requires a <= b
    ensures k * a <= k * b
  {
  }

  /** The description becomes one more document exactly when it is longer
      than 100 characters. */
  function WithDescription(docs: seq<Doc>, description: string): (r: seq<Doc>)
    ensures |description| > 100 ==> r == docs + [Doc(description, Description)]
    ensures |description| <= 100 ==> r == docs
  {
    if |description| > 100 then docs + [Doc(description, Description)] else docs
  }

  // ------------------------------------------------ speech-to-text chunks

  /** One speech-to-text segment: its text and start time in seconds. */
  datatype Segment = Segment(text: string, start: real)

  /** Start a new chunk after ten minutes or twenty segments. */
  const ChunkSeconds: real := 600.0
  const ChunkSegments := 20

  /** Whether `s` starts a new chunk after the open group `cur`. */
  predicate Breaks(cur: seq<Segment>, s: Segment) {
    |cur| >= ChunkSegments || (|cur| > 0 && s.start - cur[0].start > ChunkSeconds)
  }

  /** A group that the rule lets grow: non-empty, at most twenty segments,
      none of them more than ten minutes after the first. */
  predicate GroupOk(g: seq<Segment>) {
    0 < |g| <= ChunkSegments && forall k :: 0 < k < |g| ==> g[k].start - g[0].start <= ChunkSeconds
  }

  /** The groups the loop forms, given the open group `cur` and the
      segments still to come. */
  function GroupFrom(cur: seq<Segment>, rest: seq<Segment>): seq<seq<Segment>>
    decreases |rest|
  {
    if |rest| == 0 then [cur]
    else if Breaks(cur, rest[0]) then [cur] + GroupFrom([rest[0]], rest[1..])
    else GroupFrom(cur + [rest[0]], rest[1..])
  }

  /** The segments cut into chunk groups, the first segment opening the
      first group. */
  function Groups(segs: seq<Segment>): seq<seq<Segment>> {
    if |segs| == 0 then [] else GroupFrom([segs[0]], segs[1..])
  }

  /** Grouping from an open group keeps every segment in order, and each
      group is one the rule lets grow, closed only by a segment that breaks
      the rule. */
  lemma {:induction false} GroupFromPartition(cur: seq<Segment>, rest: seq<Segment>)
    requires GroupOk(cur)
    ensures var r := GroupFrom(cur, rest);
            |r| > 0 && |r[0]| >= |cur| && r[0][..|cur|] == cur
    ensures Flatten(GroupFrom(cur, rest)) == cur + rest
    ensures var r := GroupFrom(cur, rest);
            forall i :: 0 <= i < |r| ==> GroupOk(r[i])
    ensures var r := GroupFrom(cur, rest);
            forall i :: 0 < i < |r| ==> |r[i]| > 0 && Breaks(r[i - 1], r[i][0])
    decreases |rest|
  {
    if |rest| == 0 {
      assert Flatten([cur]) == cur + Flatten([]);
      assert cur + rest == cur;
    } else if Breaks(cur, rest[0]) {
      var tail := GroupFrom([rest[0]], rest[1..]);
      GroupFromPartition([rest[0]], rest[1..]);
      assert rest == [rest[0]] + rest[1..];
      assert ([cur] + tail)[1..] == tail;
    } else {
      GroupFromPartition(cur + [rest[0]], rest[1..]);
      var tail := GroupFrom(cur + [rest[0]], rest[1..]);
      assert cur + rest == cur + [rest[0]] + rest[1..];
      assert tail[0][..|cur|] == (cur + [rest[0]])[..|cur|];
    }
  }

  /** The groups are the segments in order, cut only where a segment starts
      more than ten minutes after its group's first or the group already
      holds twenty. */
  lemma GroupsPartition(segs: seq<Segment>)
    ensures Flatten(Groups(segs)) == segs
    ensures forall i :: 0 <= i < |Groups(segs)| ==> GroupOk(Groups(segs)[i])
    ensures forall i :: 0 < i < |Groups(segs)| ==> |Groups(segs)[i]| > 0 && Breaks(Groups(segs)[i - 1], Groups(segs)[i][0])
  {
    if |segs| > 0 {
      GroupFromPartition([segs[0]], segs[1..]);
      assert segs == [segs[0]] + segs[1..];
    }
  }

  /** A group's text: its segments' texts joined by single spaces. */
  function GroupText(g: seq<Segment>): (r: string)
    ensures |g| == 0 ==> r == ""
    ensures |g| == 1 ==> r == g[0].text
  {
    if |g| == 0 then ""
    else if |g| == 1 then g[0].text
    else GroupText(g[..|g| - 1]) + " " + g[|g| - 1].text
  }

  /** The documents made from the groups; a group whose joined text is
      empty makes none, and the stripped text is kept. */
  function ChunkDocs(groups: seq<seq<Segment>>): (r: seq<Doc>)
    ensures |r| == |WithText(groups)|
  {
    if |groups| == 0 then []
    else
      GroupDocs(groups[0]) + ChunkDocs(groups[1..])
  }

  /** The document of a group, when its joined text is not empty. */
  function GroupDocs(g: seq<Segment>): seq<Doc> {
    if GroupText(g) != "" then [GroupDoc(g)] else []
  }

  /** The `i`-th document is made from the `i`-th group that has text. */
  lemma {:induction false} ChunkDocsAt(groups: seq<seq<Segment>>, i: nat)
    requires i < |WithText(groups)|
    ensures GroupText(WithText(groups)[i]) != ""
    ensures ChunkDocs(groups)[i] == GroupDoc(WithText(groups)[i])
    decreases |groups|
  {
    var g := groups[0];
    if GroupText(g) == "" {
      ChunkDocsAt(groups[1..], i);
    } else if i > 0 {
      ChunkDocsAt(groups[1..], i - 1);
    }
  }

  /** The groups that have text, in their order. */
  function WithText(groups: seq<seq<Segment>>): (r: seq<seq<Segment>>)
    ensures forall g :: g in r <==> g in groups && GroupText(g) != ""
    ensures |r| <= |groups|
  {
    if |groups| == 0 then []
    else (if GroupText(groups[0]) != "" then [groups[0]] else []) + WithText(groups[1..])
  }

  /** The document of one group with text: its stripped text, starting at
      its first segment. */
  function GroupDoc(g: seq<Segment>): Doc
    requires GroupText(g) != ""
  {
    Doc(Strip(GroupText(g)), StartingAt(g[0].start))
  }

  /** The grouping loop over the segments as written: the chunk text grows
      by a space and the next segment's text until a segment breaks the
      rule, when the open chunk is emitted if its text is not empty. */
  method GroupSegments(segs: seq<Segment>) returns (docs: seq<Doc>)
    ensures docs == ChunkDocs(Groups(segs))
  {
    docs := [];
    var current := "";
    var currentStart: real := 0.0;
    var count := 0;
    ghost var cur: seq<Segment> := [];
    ghost var done: seq<seq<Segment>> := [];
    var i := 0;
    while i < |segs|
      invariant 0 <= i <= |segs|
      invariant i == 0 <==> |cur| == 0
      invariant i == 0 ==> done == [] && current == ""
      invariant i > 0 ==> Pending(done, cur, segs, i)
      invariant docs == ChunkDocs(done)
      invariant count == |cur| && current == GroupText(cur)
      invariant |cur| > 0 ==> currentStart == cur[0].start
    {
      var s := segs[i];
      if i == 0 || s.start - currentStart > ChunkSeconds || count >= ChunkSegments {
        CloseKeeps(done, cur, segs, i);
        if current != "" {
          docs := docs + [Doc(Strip(current), StartingAt(currentStart))];
        }
        done := if i > 0 then done + [cur] else done;
        current := s.text;
        currentStart := s.start;
        count := 1;
        cur := [s];
      } else {
        GrowKeeps(done, cur, segs, i);
        current := current + " " + s.text;
        count := count + 1;
        cur := cur + [s];
      }
      i := i + 1;
    }
    if i > 0 {
      LastStep(done, cur, segs);
      ChunkDocsAppend(done, cur);
    }
    if current != "" {
      docs := docs + [Doc(Strip(current), StartingAt(currentStart))];
    }
  }

  /** Closing the open group at segment `i` keeps the loop's view: the
      group joins the closed ones and its document, if any, the output. */
  lemma CloseKeeps(done: seq<seq<Segment>>, cur: seq<Segment>, segs: seq<Segment>, i: nat)
    requires i < |segs|
    requires i == 0 <==> |cur| == 0
    requires i == 0 ==> done == []
    requires i > 0 ==> Pending(done, cur, segs, i) && Breaks(cur, segs[i])
    ensures Pending(if i > 0 then done + [cur] else done, [segs[i]], segs, i + 1)
    ensures ChunkDocs(if i > 0 then done + [cur] else done) == ChunkDocs(done) + GroupDocs(cur)
  {
    if i > 0 {
      CloseStep(done, cur, segs, i);
      ChunkDocsAppend(done, cur);
    }
  }

  /** Adding segment `i` to the open group keeps the loop's view, and the
      group's text grows by a space and the segment's text. */
  lemma GrowKeeps(done: seq<seq<Segment>>, cur: seq<Segment>, segs: seq<Segment>, i: nat)
    requires 0 < i < |segs| && |cur| > 0
    requires Pending(done, cur, segs, i) && !Breaks(cur, segs[i])
    ensures Pending(done, cur + [segs[i]], segs, i + 1)
    ensures GroupText(cur + [segs[i]]) == GroupText(cur) + " " + segs[i].text
    ensures (cur + [segs[i]])[0] == cur[0] && |cur + [segs[i]]| == |cur| + 1
  {
    GrowStep(done, cur, segs, i);
    GrowText(cur, segs[i]);
  }

  /** The loop's view of the grouping after its first `i` segments: the
      closed groups, then what the open group and the rest will form. */
  predicate Pending(done: seq<seq<Segment>>, cur: seq<Segment>, segs: seq<Segment>, i: nat)
    requires i <= |segs|
  {
    done + GroupFrom(cur, segs[i..]) == Groups(segs)
  }

  lemma CloseStep(done: seq<seq<Segment>>, cur: seq<Segment>, segs: seq<Segment>, i: nat)
    requires 0 < i < |segs| && Pending(done, cur, segs, i) && Breaks(cur, segs[i])
    ensures Pending(done + [cur], [segs[i]], segs, i + 1)
  {
    var rest := segs[i..];
    assert rest[0] == segs[i] && rest[1..] == segs[i + 1..];
    GroupFromStep(cur, rest);
    var next := GroupFrom([segs[i]], segs[i + 1..]);
    assert done + ([cur] + next) == (done + [cur]) + next;
  }

  lemma GrowStep(done: seq<seq<Segment>>, cur: seq<Segment>, segs: seq<Segment>, i: nat)
    requires 0 < i < |segs| && Pending(done, cur, segs, i) && !Breaks(cur, segs[i])
    ensures Pending(done, cur + [segs[i]], segs, i + 1)
  {
    var rest := segs[i..];
    assert rest[0] == segs[i] && rest[1..] == segs[i + 1..];
    GroupFromStep(cur, rest);
  }

  lemma LastStep(done: seq<seq<Segment>>, cur: seq<Segment>, segs: seq<Segment>)
    requires Pending(done, cur, segs, |segs|)
    ensures Groups(segs) == done + [cur]
  {
    assert segs[|segs|..] == [];
  }

  /** One step of the grouping: the next segment either closes the open
      group and opens its own, or joins the open group. */
  lemma GroupFromStep(cur: seq<Segment>, rest: seq<Segment>)
    requires |rest| > 0
    ensures Breaks(cur, rest[0]) ==> GroupFrom(cur, rest) == [cur] + GroupFrom([rest[0]], rest[1..])
    ensures !Breaks(cur, rest[0]) ==> GroupFrom(cur, rest) == GroupFrom(cur + [rest[0]], rest[1..])
  {
  }

  lemma GrowText(cur: seq<Segment>, s: Segment)
    requires |cur| > 0
    ensures GroupText(cur + [s]) == GroupText(cur) + " " + s.text
  {
    assert (cur + [s])[..|cur|] == cur;
  }

  lemma {:induction false} ChunkDocsAppend(groups: seq<seq<Segment>>, g: seq<Segment>)
    ensures ChunkDocs(groups + [g]) == ChunkDocs(groups) + GroupDocs(g)
  {
    if |groups| > 0 {
      var h := groups[0];
      assert (groups + [g])[0] == h;
      assert (groups + [g])[1..] == groups[1..] + [g];
      ChunkDocsAppend(groups[1..], g);
      AppendAssoc(GroupDocs(h), ChunkDocs(groups[1..]), GroupDocs(g));
    } else {
      assert [g][1..] == [];
    }
  }
}
