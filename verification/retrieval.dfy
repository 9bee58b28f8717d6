/** The bookkeeping of `PDFProcessor` around its vector index: chunk
    documents with their metadata, the index state and its error conditions,
    persistence, and the id-to-document mapping of a search
    (app/utils/pdf_processor.py). The embedder and FAISS are abstracted: the
    index only knows how many vectors it holds, and a search is given the id
    row FAISS would return. */
module Retrieval {
  import opened Wrappers
  import opened Text
  import opened Segmenter

  /** The metadata dictionary a processed chunk carries. */
  datatype ChunkMeta = ChunkMeta(source: string, chunk: nat, totalChunks: nat)

  /** `Document`: page content and an optional metadata dictionary
      (`None` stands for the empty dictionary `metadata or {}` makes). */
  datatype Document = Document(content: string, meta: Option<ChunkMeta>)

  /** A FAISS `IndexFlatL2` seen only through the number of vectors it holds. */
  datatype FlatIndex = FlatIndex(ntotal: nat)

  /** `PDFProcessor`'s mutable state: `vector_store` and `documents`. */
  datatype Processor = Processor(index: Option<FlatIndex>, documents: seq<Document>)

  /** The two files a saved store consists of; either may be missing. */
  datatype Saved = Saved(index: Option<FlatIndex>, documents: Option<seq<Document>>)

  /** The file system, as far as the stores are concerned. */
  type Disk = map<string, Saved>

  /** The `ValueError`s the processor and its callers raise. */
  datatype Error = NoDocumentsProvided | NotInitialized | StoreNotFound(path: string) | NoDocumentsFound

  /** Lines 15-21: a fresh processor has no index and no documents. */
  const Fresh: Processor := Processor(None, [])

  /** An index that holds one vector per document. */
  predicate Consistent(p: Processor) {
    p.index.Some? ==> p.index.value.ntotal == |p.documents|
  }

  // ------------------------------------------------------------ documents

  function Contents(docs: seq<Document>): (r: seq<string>)
    ensures |r| == |docs|
    ensures forall i :: 0 <= i < |docs| ==> r[i] == docs[i].content
  {
    seq(|docs|, i requires 0 <= i < |docs| => docs[i].content)
  }

  /** Lines 187-196: chunk `i` of `n` becomes document `i`, labelled with
      the file name, its position and the chunk count. */
  function LabelChunks(name: string, chunks: seq<string>): (r: seq<Document>)
    ensures |r| == |chunks|
    ensures Contents(r) == chunks
    ensures forall i :: 0 <= i < |r| ==> r[i].meta == Some(ChunkMeta(name, i, |chunks|))
  {
    seq(|chunks|, i requires 0 <= i < |chunks| => Document(chunks[i], Some(ChunkMeta(name, i, |chunks|))))
  }

  /** Lines 181-196: the documents made from one file's text. Blank text
      gives none; otherwise every chunk of `split_text`, labelled. */
  function FileDocuments(name: string, text: string): (r: seq<Document>)
    ensures Strip(text) == "" <==> r == []
    ensures r != [] ==> r == LabelChunks(name, SplitText(text))
  {
    if Strip(text) == "" then [] else LabelChunks(name, SplitText(text))
  }

  /** A document as `process_pdfs_from_directory` produces it. */
  predicate WellLabelled(d: Document) {
    && d.meta.Some?
    && EndsWith(d.meta.value.source, ".pdf")
    && d.meta.value.chunk < d.meta.value.totalChunks
    && '\n' !in d.content
  }

  /** Lines 172-198 without the file reading: `files` holds each directory
      entry's name with its extracted text. Only names ending in `.pdf`
      contribute, in directory order. */
  function ProcessFiles(files: seq<(string, string)>): (r: seq<Document>)
    ensures forall d :: d in r ==> WellLabelled(d)
    decreases |files|
  {
    if |files| == 0 then []
    else
      var (name, text) := files[0];
      var rest := ProcessFiles(files[1..]);
      if EndsWith(name, ".pdf") then
        var mine := FileDocuments(name, text);
        assert forall d :: d in mine ==> WellLabelled(d) by {
          forall d | d in mine ensures WellLabelled(d) {
            var i :| 0 <= i < |mine| && mine[i] == d;
            assert Contents(mine)[i] == d.content;
            assert d.content in SplitText(text);
          }
        }
        mine + rest
      else rest
  }

  /** A file whose name does not end in `.pdf` adds nothing, wherever it
      stands in the listing. */
  lemma {:induction false} NonPdfIgnored(before: seq<(string, string)>, name: string, text: string, after: seq<(string, string)>)
    requires !EndsWith(name, ".pdf")
    ensures ProcessFiles(before + [(name, text)] + after) == ProcessFiles(before + after)
    decreases |before|
  {
    if |before| == 0 {
      assert before + [(name, text)] + after == [(name, text)] + after;
      assert ([(name, text)] + after)[1..] == after;
      assert before + after == after;
    } else {
      NonPdfIgnored(before[1..], name, text, after);
      assert (before + [(name, text)] + after)[1..] == before[1..] + [(name, text)] + after;
      assert (before + after)[1..] == before[1..] + after;
    }
  }

  /** A single `.pdf` file with non-blank text gives exactly its labelled
      chunks, and there is at least one. */
  lemma SinglePdf(name: string, text: string)
    requires EndsWith(name, ".pdf") && Strip(text) != ""
    ensures ProcessFiles([(name, text)]) == LabelChunks(name, SplitText(text))
    ensures |ProcessFiles([(name, text)])| > 0
  {
    assert [(name, text)][1..] == [];
    assert ProcessFiles([(name, text)]) == FileDocuments(name, text) + [];
  }

  // ------------------------------------------------------------ index state

  /** Lines 200-219: building the index replaces the documents and adds one
      vector per document; an empty list is refused and leaves the state alone. */
  function CreateVectorStore(p: Processor, docs: seq<Document>): (r: Result<Processor, Error>)
    ensures r.Failure? <==> docs == []
    ensures r.Failure? ==> r.error == NoDocumentsProvided
    ensures r.Success? ==> Consistent(r.value) && r.value.documents == docs && r.value.index.Some?
  {
    if docs == [] then Failure(NoDocumentsProvided)
    else Success(Processor(Some(FlatIndex(|docs|)), docs))
  }

  /** Lines 221-235: both artifacts are written under `path`; saving
      without an index is refused and writes nothing. */
  function SaveVectorStore(p: Processor, disk: Disk, path: string): (r: Result<Disk, Error>)
    ensures r.Failure? <==> p.index.None?
    ensures r.Failure? ==> r.error == NotInitialized
    ensures r.Success? ==> path in r.value && r.value[path].index == p.index && r.value[path].documents == Some(p.documents)
    ensures r.Success? ==> forall q :: q in disk && q != path ==> q in r.value && r.value[q] == disk[q]
  {
    if p.index.None? then Failure(NotInitialized)
    else Success(disk[path := Saved(p.index, Some(p.documents))])
  }

  /** Both artifacts exist under `path`. */
  predicate StoreExists(disk: Disk, path: string) {
    path in disk && disk[path].index.Some? && disk[path].documents.Some?
  }

  /** Lines 237-252: loading replaces index and documents with the stored
      ones; a missing artifact is refused. The stored documents are not
      checked against the index size. */
  function LoadVectorStore(p: Processor, disk: Disk, path: string): (r: Result<Processor, Error>)
    ensures r.Failure? <==> !StoreExists(disk, path)
    ensures r.Failure? ==> r.error == StoreNotFound(path)
    ensures r.Success? ==> r.value.index == disk[path].index && r.value.documents == disk[path].documents.value
  {
    if !StoreExists(disk, path) then Failure(StoreNotFound(path))
    else Success(Processor(disk[path].index, disk[path].documents.value))
  }

  /** Saving and then loading from the same path restores the processor,
      whatever state the loading processor was in. */
  lemma SaveLoadRoundTrip(p: Processor, q: Processor, disk: Disk, path: string)
    requires p.index.Some?
    ensures SaveVectorStore(p, disk, path).Success?
    ensures LoadVectorStore(q, SaveVectorStore(p, disk, path).value, path) == Success(p)
  {
  }

  /** Saving under one path does not disturb a store under another. */
  lemma SaveKeepsOtherStores(p: Processor, q: Processor, disk: Disk, path: string, other: string)
    requires p.index.Some? && other != path
    ensures LoadVectorStore(q, SaveVectorStore(p, disk, path).value, other) == LoadVectorStore(q, disk, other)
  {
  }

  // ------------------------------------------------------------ search

  /** Lines 266-269: the documents the ids name, in id order, skipping ids
      outside `[0, |docs|)` (FAISS pads with -1 when it has fewer vectors). */
  function Lookup(docs: seq<Document>, ids: seq<int>): (r: seq<Document>)
    ensures |r| <= |ids|
    ensures forall d :: d in r ==> d in docs
    decreases |ids|
  {
    if |ids| == 0 then []
    else (if 0 <= ids[0] < |docs| then [docs[ids[0]]] else []) + Lookup(docs, ids[1..])
  }

  lemma {:induction false} LookupAppend(docs: seq<Document>, a: seq<int>, b: seq<int>)
    ensures Lookup(docs, a + b) == Lookup(docs, a) + Lookup(docs, b)
    decreases |a|
  {
    if |a| == 0 {
      assert a + b == b;
    } else {
      assert (a + b)[1..] == a[1..] + b;
      LookupAppend(docs, a[1..], b);
    }
  }

  /** With every id in range nothing is dropped: position `i` of the result
      is the document id `i` names. */
  lemma {:induction false} LookupAllValid(docs: seq<Document>, ids: seq<int>)
    requires forall i :: 0 <= i < |ids| ==> 0 <= ids[i] < |docs|
    ensures |Lookup(docs, ids)| == |ids|
    ensures forall i :: 0 <= i < |ids| ==> Lookup(docs, ids)[i] == docs[ids[i]]
    decreases |ids|
  {
    if |ids| > 0 {
      LookupAllValid(docs, ids[1..]);
    }
  }

  /** Ids that are all out of range give nothing. */
  lemma {:induction false} LookupNoneValid(docs: seq<Document>, ids: seq<int>)
    requires forall i :: 0 <= i < |ids| ==> !(0 <= ids[i] < |docs|)
    ensures Lookup(docs, ids) == []
    decreases |ids|
  {
    if |ids| > 0 {
      LookupNoneValid(docs, ids[1..]);
    }
  }

  /** Lines 254-271: search needs an index; `hits` is the id row FAISS
      returns for the query, one id per requested neighbour. */
  function SearchSimilarDocuments(p: Processor, k: nat, hits: seq<int>): (r: Result<seq<Document>, Error>)
    requires |hits| == k
    ensures r.Failure? <==> p.index.None?
    ensures r.Failure? ==> r.error == NotInitialized
    ensures r.Success? ==> |r.value| <= k && forall d :: d in r.value ==> d in p.documents
  {
    if p.index.None? then Failure(NotInitialized)
    else Success(Lookup(p.documents, hits))
  }

  /** The id row an exhaustive flat index returns for `k` neighbours: the
      first `min(k, ntotal)` entries are ids of stored vectors, the rest -1. */
  predicate FlatHits(idx: FlatIndex, k: nat, hits: seq<int>) {
    var found := if k <= idx.ntotal then k else idx.ntotal;
    && |hits| == k
    && (forall i :: 0 <= i < found ==> 0 <= hits[i] < idx.ntotal)
    && (forall i :: found <= i < k ==> hits[i] == -1)
  }

  /** On a consistent processor a search returns `min(k, |documents|)`
      documents: the ones the index names, in rank order. */
  lemma SearchCount(p: Processor, k: nat, hits: seq<int>)
    requires Consistent(p) && p.index.Some? && FlatHits(p.index.value, k, hits)
    ensures var r := SearchSimilarDocuments(p, k, hits);
      && r.Success?
      && |r.value| == (if k <= |p.documents| then k else |p.documents|)
      && forall i :: 0 <= i < |r.value| ==> r.value[i] == p.documents[hits[i]]
  {
    var n := |p.documents|;
    var found := if k <= n then k else n;
    var a, b := hits[..found], hits[found..];
    assert hits == a + b;
    LookupAppend(p.documents, a, b);
    LookupAllValid(p.documents, a);
    LookupNoneValid(p.documents, b);
  }

  // ------------------------------------------------------------ engine wiring

  /** `initialize_from_pdfs` in both chatbot engines: process the files,
      refuse an empty result, build the index and save it when a path is
      given. `if vector_store_path:` treats the empty path like no path. */
  function InitializeFromFiles(p: Processor, disk: Disk, files: seq<(string, string)>, storePath: Option<string>): (r: Result<(Processor, Disk), Error>)
    ensures r.Failure? <==> ProcessFiles(files) == []
    ensures r.Failure? ==> r.error == NoDocumentsFound
    ensures r.Success? ==> Consistent(r.value.0) && r.value.0.documents == ProcessFiles(files) && r.value.0.index.Some?
    ensures r.Success? && storePath.Some? && storePath.value != "" ==>
      LoadVectorStore(p, r.value.1, storePath.value) == Success(r.value.0)
      && forall q :: q in disk && q != storePath.value ==> q in r.value.1 && r.value.1[q] == disk[q]
    ensures r.Success? && (storePath.None? || storePath.value == "") ==> r.value.1 == disk
  {
    var docs := ProcessFiles(files);
    if docs == [] then Failure(NoDocumentsFound)
    else
      var q := CreateVectorStore(p, docs).value;
      match storePath
      case None => Success((q, disk))
      case Some(path) =>
        if path == "" then Success((q, disk))
        else Success((q, SaveVectorStore(q, disk, path).value))
  }
}
