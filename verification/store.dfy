/** The client's summary store: uploaded files, the summaries made from
    them, the current selection, and the metadata of the document being
    edited. Every action is a function from the store to the next store. */
module SummaryStore {
  import opened Common

  datatype File = File(id: string, name: string, fileType: string, size: nat, publicUrl: string)

  /** A summary result. The optional fields are `None` when absent. */
  datatype SummaryResult = SummaryResult(id: string, fileId: string, title: string, summary: string,
                                         keyPoints: seq<string>, status: Option<string>,
                                         cardCount: Option<int>, kind: Option<string>)

  /** A partial result: only the fields that are present are merged in, as
      an object spread does. */
  datatype ResultPatch = ResultPatch(id: Option<string>, fileId: Option<string>, title: Option<string>,
                                     summary: Option<string>, keyPoints: Option<seq<string>>,
                                     status: Option<string>, cardCount: Option<int>, kind: Option<string>)

  datatype DocumentMetadata = DocumentMetadata(documentId: string, summaryId: string, wordCount: int,
                                               createdAt: string, lastUpdated: string,
                                               title: Option<string>, tags: Option<seq<string>>)

  datatype MetadataPatch = MetadataPatch(documentId: Option<string>, summaryId: Option<string>,
                                         wordCount: Option<int>, createdAt: Option<string>,
                                         title: Option<string>, tags: Option<seq<string>>)

  datatype SaveState = Idle | Saving | Saved | SaveError
  datatype SaveStatus = SaveStatus(state: SaveState, lastSaved: Option<nat>, error: Option<string>)

  datatype Store = Store(files: seq<File>, results: seq<SummaryResult>, currentFile: Option<File>,
                         currentResult: Option<SummaryResult>, isProcessing: bool, editorContent: string,
                         documentMetadata: Option<DocumentMetadata>, saveStatus: SaveStatus)

  const Initial := Store([], [], None, None, false, "", None, SaveStatus(Idle, None, None))

  function Pick<T>(patch: Option<T>, current: T): T {
    if patch.Some? then patch.value else current
  }

  /** `{...r, ...patch}`. */
  function MergeResult(r: SummaryResult, p: ResultPatch): (m: SummaryResult)
    ensures p.id.None? ==> m.id == r.id
    ensures p.id.Some? ==> m.id == p.id.value
    ensures p.fileId.None? ==> m.fileId == r.fileId
    ensures p.fileId.Some? ==> m.fileId == p.fileId.value
    ensures p.title.None? ==> m.title == r.title
    ensures p.title.Some? ==> m.title == p.title.value
    ensures p.summary.None? ==> m.summary == r.summary
    ensures p.summary.Some? ==> m.summary == p.summary.value
    ensures p.keyPoints.None? ==> m.keyPoints == r.keyPoints
    ensures p.keyPoints.Some? ==> m.keyPoints == p.keyPoints.value
    ensures m.status == (if p.status.Some? then p.status else r.status)
    ensures m.cardCount == (if p.cardCount.Some? then p.cardCount else r.cardCount)
    ensures m.kind == (if p.kind.Some? then p.kind else r.kind)
    ensures p == ResultPatch(None, None, None, None, None, None, None, None) ==> m == r
  {
    SummaryResult(Pick(p.id, r.id), Pick(p.fileId, r.fileId), Pick(p.title, r.title), Pick(p.summary, r.summary),
                  Pick(p.keyPoints, r.keyPoints),
                  if p.status.Some? then p.status else r.status,
                  if p.cardCount.Some? then p.cardCount else r.cardCount,
                  if p.kind.Some? then p.kind else r.kind)
  }

  /** Patch `q` laid over patch `p`: a field of `q` wins where present. */
  function Over(p: ResultPatch, q: ResultPatch): ResultPatch {
    ResultPatch(if q.id.Some? then q.id else p.id, if q.fileId.Some? then q.fileId else p.fileId,
                if q.title.Some? then q.title else p.title, if q.summary.Some? then q.summary else p.summary,
                if q.keyPoints.Some? then q.keyPoints else p.keyPoints,
                if q.status.Some? then q.status else p.status,
                if q.cardCount.Some? then q.cardCount else p.cardCount,
                if q.kind.Some? then q.kind else p.kind)
  }

  /** Two spreads in a row are one spread of the combined patch; in
      particular applying the same patch twice changes nothing more. */
  lemma MergeComposes(r: SummaryResult, p: ResultPatch, q: ResultPatch)
    ensures MergeResult(MergeResult(r, p), q) == MergeResult(r, Over(p, q))
    ensures MergeResult(MergeResult(r, p), p) == MergeResult(r, p)
  {
    assert Over(p, p) == p;
  }

  /** A whole result seen as a patch: every required field present. */
  function AsPatch(r: SummaryResult): ResultPatch {
    ResultPatch(Some(r.id), Some(r.fileId), Some(r.title), Some(r.summary), Some(r.keyPoints),
                r.status, r.cardCount, r.kind)
  }

  /** Merging a whole result takes all of its fields; only optional fields it
      lacks keep the old values. */
  lemma MergeWholeResult(prev: SummaryResult, r: SummaryResult)
    ensures var m := MergeResult(prev, AsPatch(r));
      && m.id == r.id && m.fileId == r.fileId && m.title == r.title && m.summary == r.summary
      && m.keyPoints == r.keyPoints
      && m.status == (if r.status.Some? then r.status else prev.status)
    ensures r.status.Some? && r.cardCount.Some? && r.kind.Some? ==> MergeResult(prev, AsPatch(r)) == r
  {
  }

  // ------------------------------------------------------------- files

  function FilesWithout(fs: seq<File>, id: string): (r: seq<File>)
    ensures forall f :: f in r <==> f in fs && f.id != id
    ensures |r| <= |fs|
  {
    if |fs| == 0 then []
    else if fs[0].id != id then [fs[0]] + FilesWithout(fs[1..], id)
    else FilesWithout(fs[1..], id)
  }

  function ResultsWhere(rs: seq<SummaryResult>, fileId: string, keep: bool): (r: seq<SummaryResult>)
    ensures forall x :: x in r <==> x in rs && (x.fileId == fileId) == keep
    ensures |r| <= |rs|
  {
    if |rs| == 0 then []
    else if (rs[0].fileId == fileId) == keep then [rs[0]] + ResultsWhere(rs[1..], fileId, keep)
    else ResultsWhere(rs[1..], fileId, keep)
  }

  function ResultsWithoutId(rs: seq<SummaryResult>, id: string): (r: seq<SummaryResult>)
    ensures forall x :: x in r <==> x in rs && x.id != id
    ensures |r| <= |rs|
  {
    if |rs| == 0 then []
    else if rs[0].id != id then [rs[0]] + ResultsWithoutId(rs[1..], id)
    else ResultsWithoutId(rs[1..], id)
  }

  /** `addFile`. */
  function AddFile(s: Store, f: File): (r: Store)
    ensures r.files == s.files + [f]
    ensures r == s.(files := r.files)
  {
    s.(files := s.files + [f])
  }

  /** `removeFile`: the file goes, and so does every result made from it;
      the current file and result are cleared when they belong to it. */
  function RemoveFile(s: Store, fileId: string): (r: Store)
    ensures forall f :: f in r.files <==> f in s.files && f.id != fileId
    ensures forall x :: x in r.results <==> x in s.results && x.fileId != fileId
    ensures r.currentFile == (if s.currentFile.Some? && s.currentFile.value.id == fileId then None else s.currentFile)
    ensures r.currentResult ==
              (if s.currentResult.Some? && s.currentResult.value.fileId == fileId then None else s.currentResult)
    ensures r == s.(files := r.files, results := r.results, currentFile := r.currentFile,
                    currentResult := r.currentResult)
  {
    s.(files := FilesWithout(s.files, fileId),
       results := ResultsWhere(s.results, fileId, false),
       currentFile := if s.currentFile.Some? && s.currentFile.value.id == fileId then None else s.currentFile,
       currentResult := if s.currentResult.Some? && s.currentResult.value.fileId == fileId then None else s.currentResult)
  }

  // ------------------------------------------------------------ lookups

  /** `getFileById`: the first file with the id, as `find`. */
  function GetFileById(s: Store, id: string): (r: Option<File>)
    ensures r.None? <==> forall f :: f in s.files ==> f.id != id
    ensures r.Some? ==> exists i :: 0 <= i < |s.files| && s.files[i] == r.value && r.value.id == id &&
                                    forall j :: 0 <= j < i ==> s.files[j].id != id
  {
    var i := FileIndex(s.files, id);
    if i.Some? then Some(s.files[i.value]) else None
  }

  /** Index of the first file with the id. */
  function FileIndex(fs: seq<File>, id: string): (r: Option<nat>)
    ensures r.None? <==> forall i :: 0 <= i < |fs| ==> fs[i].id != id
    ensures r.Some? ==> r.value < |fs| && fs[r.value].id == id &&
                        forall j :: 0 <= j < r.value ==> fs[j].id != id
  {
    if |fs| == 0 then None
    else if fs[0].id == id then Some(0)
    else
      var r := FileIndex(fs[1..], id);
      if r.Some? then Some(r.value + 1) else None
  }

  /** Index of the first result with the id, as `findIndex`. */
  function FindIndex(rs: seq<SummaryResult>, id: string): (r: Option<nat>)
    ensures r.None? <==> forall i :: 0 <= i < |rs| ==> rs[i].id != id
    ensures r.Some? ==> r.value < |rs| && rs[r.value].id == id &&
                        forall j :: 0 <= j < r.value ==> rs[j].id != id
  {
    if |rs| == 0 then None
    else if rs[0].id == id then Some(0)
    else
      var r := FindIndex(rs[1..], id);
      if r.Some? then Some(r.value + 1) else None
  }

  /** `getResultById`: the first result with the id. */
  function GetResultById(s: Store, id: string): (r: Option<SummaryResult>)
    ensures r.None? <==> forall x :: x in s.results ==> x.id != id
    ensures r.Some? ==> exists i :: 0 <= i < |s.results| && s.results[i] == r.value && r.value.id == id &&
                                    forall j :: 0 <= j < i ==> s.results[j].id != id
  {
    var i := FindIndex(s.results, id);
    if i.Some? then Some(s.results[i.value]) else None
  }

  /** `getResultsByFileId`. */
  function GetResultsByFileId(s: Store, fileId: string): (r: seq<SummaryResult>)
    ensures forall x :: x in r <==> x in s.results && x.fileId == fileId
  {
    ResultsWhere(s.results, fileId, true)
  }

  /** Removing a file leaves nothing behind that refers to it. */
  lemma RemoveFileCascades(s: Store, fileId: string)
    ensures GetFileById(RemoveFile(s, fileId), fileId).None?
    ensures GetResultsByFileId(RemoveFile(s, fileId), fileId) == []
    ensures RemoveFile(s, fileId).currentFile.Some? ==> RemoveFile(s, fileId).currentFile.value.id != fileId
  {
    NoneMatch(RemoveFile(s, fileId).results, fileId);
  }

  /** Selecting the results of a file nobody's results belong to gives
      nothing. */
  lemma {:induction false} NoneMatch(rs: seq<SummaryResult>, fileId: string)
    requires forall i :: 0 <= i < |rs| ==> rs[i].fileId != fileId
    ensures ResultsWhere(rs, fileId, true) == []
  {
    if |rs| > 0 {
      NoneMatch(rs[1..], fileId);
    }
  }

  // ------------------------------------------------------------ results

  /** No two results share an id. */
  predicate UniqueIds(rs: seq<SummaryResult>) {
    forall i, j :: 0 <= i < j < |rs| ==> rs[i].id != rs[j].id
  }

  /** `addResult`: merge into the first result with the same id, or append
      when there is none. */
  function AddResult(s: Store, x: SummaryResult): (r: Store)
    ensures FindIndex(s.results, x.id).None? ==> r.results == s.results + [x]
    ensures FindIndex(s.results, x.id).Some? ==>
              var i := FindIndex(s.results, x.id).value;
              r.results == s.results[i := MergeResult(s.results[i], AsPatch(x))]
    ensures r == s.(results := r.results)
  {
    var i := FindIndex(s.results, x.id);
    if i.Some? then s.(results := s.results[i.value := MergeResult(s.results[i.value], AsPatch(x))])
    else s.(results := s.results + [x])
  }

  /** Upserting keeps the ids unique and leaves the result findable under
      its id, carrying the new content. */
  lemma AddResultUpserts(s: Store, x: SummaryResult)
    requires UniqueIds(s.results)
    ensures UniqueIds(AddResult(s, x).results)
    ensures var g := GetResultById(AddResult(s, x), x.id);
            g.Some? && g.value.title == x.title && g.value.summary == x.summary && g.value.fileId == x.fileId
    ensures |AddResult(s, x).results| == |s.results| + (if FindIndex(s.results, x.id).None? then 1 else 0)
  {
    var rs := AddResult(s, x).results;
    var i := FindIndex(s.results, x.id);
    MergeWholeResult(if i.Some? then s.results[i.value] else x, x);
    if i.None? {
      assert rs[|s.results|] == x;
      assert FindIndex(rs, x.id) == Some(|s.results|) by { FindIndexAt(rs, x.id, |s.results|); }
    } else {
      assert rs[i.value].id == x.id;
      FindIndexAt(rs, x.id, i.value);
    }
  }

  /** In a sequence whose only entry with the id sits at `k`, the search
      finds `k`. */
  lemma FindIndexAt(rs: seq<SummaryResult>, id: string, k: nat)
    requires k < |rs| && rs[k].id == id && forall j :: 0 <= j < k ==> rs[j].id != id
    ensures FindIndex(rs, id) == Some(k)
  {
    var r := FindIndex(rs, id);
    assert r.Some?;
    assert !(r.value < k) && !(k < r.value);
  }

  /** `updateResult`: every result with the id gets the patch; the list keeps
      its length and order. */
  function UpdateResult(s: Store, id: string, p: ResultPatch): (r: Store)
    ensures |r.results| == |s.results|
    ensures forall i :: 0 <= i < |s.results| ==>
              r.results[i] == (if s.results[i].id == id then MergeResult(s.results[i], p) else s.results[i])
    ensures r == s.(results := r.results)
  {
    s.(results := seq(|s.results|, i requires 0 <= i < |s.results| =>
                        if s.results[i].id == id then MergeResult(s.results[i], p) else s.results[i]))
  }

  /** A patch without an id never changes which results exist under which
      id, and results with other ids are untouched. */
  lemma UpdateResultKeepsIds(s: Store, id: string, p: ResultPatch)
    requires p.id.None?
    ensures var r := UpdateResult(s, id, p).results;
            forall i :: 0 <= i < |r| ==> r[i].id == s.results[i].id
    ensures UniqueIds(s.results) ==> UniqueIds(UpdateResult(s, id, p).results)
  {
  }

  /** `removeResult`. */
  function RemoveResult(s: Store, id: string): (r: Store)
    ensures forall x :: x in r.results <==> x in s.results && x.id != id
    ensures r.currentResult == (if s.currentResult.Some? && s.currentResult.value.id == id then None else s.currentResult)
    ensures r == s.(results := r.results, currentResult := r.currentResult)
  {
    s.(results := ResultsWithoutId(s.results, id),
       currentResult := if s.currentResult.Some? && s.currentResult.value.id == id then None else s.currentResult)
  }

  /** Adding a result that was not there and removing it again gives the
      results back. */
  lemma {:induction false} RemoveAfterAdd(rs: seq<SummaryResult>, x: SummaryResult)
    requires forall y :: y in rs ==> y.id != x.id
    ensures ResultsWithoutId(rs + [x], x.id) == rs
  {
    if |rs| == 0 {
      assert [x][1..] == [];
    } else {
      assert (rs + [x])[1..] == rs[1..] + [x];
      RemoveAfterAdd(rs[1..], x);
      assert [rs[0]] + rs[1..] == rs;
    }
  }

  // ------------------------------------------------------------ metadata

  /** `updateDocumentMetadata`: nothing to merge into without metadata;
      otherwise the present fields are merged and the update time set to
      `now`, the current time as an ISO string. */
  function UpdateDocumentMetadata(s: Store, p: MetadataPatch, now: string): (r: Store)
    ensures s.documentMetadata.None? ==> r == s
    ensures s.documentMetadata.Some? ==>
              && r.documentMetadata.Some?
              && r.documentMetadata.value.lastUpdated == now
              && r.documentMetadata.value.summaryId == Pick(p.summaryId, s.documentMetadata.value.summaryId)
              && r.documentMetadata.value.documentId == Pick(p.documentId, s.documentMetadata.value.documentId)
              && r.documentMetadata.value.createdAt == Pick(p.createdAt, s.documentMetadata.value.createdAt)
              && r.documentMetadata.value.wordCount == Pick(p.wordCount, s.documentMetadata.value.wordCount)
              && r.documentMetadata.value.title ==
                   (if p.title.Some? then p.title else s.documentMetadata.value.title)
              && r.documentMetadata.value.tags ==
                   (if p.tags.Some? then p.tags else s.documentMetadata.value.tags)
              && r == s.(documentMetadata := r.documentMetadata)
  {
    match s.documentMetadata
    case None => s
    case Some(m) =>
      s.(documentMetadata := Some(DocumentMetadata(
           Pick(p.documentId, m.documentId), Pick(p.summaryId, m.summaryId), Pick(p.wordCount, m.wordCount),
           Pick(p.createdAt, m.createdAt), now,
           if p.title.Some? then p.title else m.title,
           if p.tags.Some? then p.tags else m.tags)))
  }

  /** An empty patch only moves the update time. */
  lemma EmptyMetadataPatch(s: Store, now: string)
    requires s.documentMetadata.Some?
    ensures UpdateDocumentMetadata(s, MetadataPatch(None, None, None, None, None, None), now).documentMetadata ==
            Some(s.documentMetadata.value.(lastUpdated := now))
  {
  }

  /** Two metadata updates in a row are one update with the later patch laid
      over the earlier, stamped with the later time. */
  lemma MetadataUpdatesCompose(s: Store, p: MetadataPatch, q: MetadataPatch, t1: string, t2: string)
    ensures UpdateDocumentMetadata(UpdateDocumentMetadata(s, p, t1), q, t2) ==
            UpdateDocumentMetadata(s, MetadataOver(p, q), t2)
  {
  }

  /** Metadata patch `q` laid over `p`. */
  function MetadataOver(p: MetadataPatch, q: MetadataPatch): MetadataPatch {
    MetadataPatch(if q.documentId.Some? then q.documentId else p.documentId,
                  if q.summaryId.Some? then q.summaryId else p.summaryId,
                  if q.wordCount.Some? then q.wordCount else p.wordCount,
                  if q.createdAt.Some? then q.createdAt else p.createdAt,
                  if q.title.Some? then q.title else p.title,
                  if q.tags.Some? then q.tags else p.tags)
  }

  /** `reset`: back to the initial store, whatever came before. */
  function Reset(s: Store): (r: Store)
    ensures r.files == [] && r.results == [] && r.currentFile.None? && r.currentResult.None?
    ensures !r.isProcessing && r.editorContent == "" && r.documentMetadata.None?
    ensures r.saveStatus == SaveStatus(Idle, None, None)
  {
    Initial
  }

  /** Resetting forgets every file and result. */
  lemma ResetForgets(s: Store, id: string)
    ensures GetFileById(Reset(s), id).None? && GetResultById(Reset(s), id).None?
    ensures GetResultsByFileId(Reset(s), id) == []
  {
  }
}
