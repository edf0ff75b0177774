/** The note indexer: building a document record from a parsed note file,
    splitting its text into fixed-size word windows ("chunks") with stable ids
    and merged metadata, and aggregating the chunks of every note in a corpus. */
module Indexer {
  import opened Wrappers
  import opened PyText
  import opened Values

  /** Default `chunk_size` of `chunk_document`, the one `index_all_notes` uses. */
  const DefaultChunkSize: int := 500
  /** Number of hex digits of the path digest kept in a document id. */
  const HashLength: nat := 16
  /** Number of characters of the raw file kept as `full_content`. */
  const FullContentLength: nat := 1000

  /** What reading one note file and running the front-matter, Markdown and HTML
      libraries over it yields: the raw text, the front-matter dictionary and the
      tag-free plain text of the body; or an exception on the way. */
  datatype Parse =
    | Parsed(raw: string, frontMatter: Metadata, plainText: string)
    | Unreadable

  /** The record `extract_content` returns for one note. */
  datatype Document = Document(
    id: string,
    filepath: string,
    filename: string,
    title: Value,
    content: string,
    metadata: Metadata,
    fullContent: string)

  /** One chunk record: a window of a document's words with its id and metadata. */
  datatype Chunk = Chunk(id: string, documentId: string, content: string, metadata: Metadata)

  /** The exceptions the indexer can raise. */
  datatype Error =
    | UnreadableNote(filepath: string)  // reading or parsing the note failed
    | ZeroStep                          // `range()` with a step of 0

  // ---------------------------------------------------------------------------
  // extract_content: the document record
  // ---------------------------------------------------------------------------

  /** `f"{Path(filepath).stem}_{md5(filepath).hexdigest()[:16]}"`, with the MD5 hex
      digest given as a function of the path. */
  function DocumentId(filepath: string, md5Hex: string -> string): string
  {
    FileStem(filepath) + "_" + Prefix(md5Hex(filepath), HashLength)
  }

  function ExtractContent(filepath: string, parse: Parse, md5Hex: string -> string): (r: Result<Document, Error>)
    ensures r.Failure? <==> parse.Unreadable?
    ensures r.Failure? ==> r.error == UnreadableNote(filepath)
    ensures r.Success? ==>
      && r.value.filepath == filepath
      && r.value.filename == FileName(filepath)
      && r.value.content == parse.plainText
      && r.value.metadata == parse.frontMatter
      && |r.value.fullContent| == Min(FullContentLength, |parse.raw|)
      && r.value.fullContent <= parse.raw
  {
    match parse
    case Unreadable => Failure(UnreadableNote(filepath))
    case Parsed(raw, frontMatter, plainText) =>
      Success(Document(
        id := DocumentId(filepath, md5Hex),
        filepath := filepath,
        filename := FileName(filepath),
        title := if "title" in frontMatter then frontMatter["title"] else Str(FileStem(filepath)),
        content := plainText,
        metadata := frontMatter,
        fullContent := Prefix(raw, FullContentLength)))
  }

  /** The document id depends on the file path only: re-reading the same path,
      whatever the file now contains, reproduces the same id; when the digest has
      at least 16 characters the id is the stem, '_' and exactly 16 of them. */
  lemma DocumentIdStable(filepath: string, p1: Parse, p2: Parse, md5Hex: string -> string)
    requires p1.Parsed? && p2.Parsed?
    ensures ExtractContent(filepath, p1, md5Hex).value.id == ExtractContent(filepath, p2, md5Hex).value.id
    ensures |md5Hex(filepath)| >= HashLength ==>
      var id := ExtractContent(filepath, p1, md5Hex).value.id;
      && id == FileStem(filepath) + "_" + md5Hex(filepath)[..HashLength]
      && |id| == |FileStem(filepath)| + 1 + HashLength
  {
  }

  /** The title is the front-matter `title` when there is one, else the stem. */
  lemma TitleFallback(filepath: string, parse: Parse, md5Hex: string -> string)
    requires parse.Parsed?
    ensures var title := ExtractContent(filepath, parse, md5Hex).value.title;
      && ("title" in parse.frontMatter ==> title == parse.frontMatter["title"])
      && ("title" !in parse.frontMatter ==> title == Str(FileStem(filepath)))
  {
  }

  // ---------------------------------------------------------------------------
  // chunk_document
  // ---------------------------------------------------------------------------

  /** The word windows `words[i:i + size]` for i in `range(0, len(words), size)`. */
  function Windows(words: seq<string>, size: nat): seq<seq<string>>
    requires size > 0
    decreases |words|
  {
    if words == [] then []
    else
      var n := Min(size, |words|);
      [words[..n]] + Windows(words[n..], size)
  }

  function ChunkId(documentId: string, k: nat): string
  {
    documentId + "_chunk_" + NatToString(k)
  }

  /** `{**document["metadata"], "source": ..., "title": ..., "chunk_index": k}`:
      the three keys written last win over front-matter keys of the same name. */
  function ChunkMetadata(doc: Document, k: nat): Metadata
  {
    doc.metadata["source" := Str(doc.filepath)]["title" := doc.title]["chunk_index" := Int(k)]
  }

  /** The k-th chunk record of a document, built from its k-th word window. */
  function MakeChunk(doc: Document, k: nat, window: seq<string>): Chunk
  {
    Chunk(ChunkId(doc.id, k), doc.id, Join(window), ChunkMetadata(doc, k))
  }

  /** The chunk records built from a document's word windows, numbered from 0. */
  function ChunksOf(doc: Document, windows: seq<seq<string>>): seq<Chunk>
  {
    seq(|windows|, k requires 0 <= k < |windows| => MakeChunk(doc, k, windows[k]))
  }

  /** The chunk records of a document for a positive chunk size. */
  function Chunks(doc: Document, size: nat): seq<Chunk>
    requires size > 0
  {
    ChunksOf(doc, Windows(Split(doc.content), size))
  }

  /** One more window gives one more chunk, numbered after the others. */
  lemma ChunksOfSnoc(doc: Document, windows: seq<seq<string>>, window: seq<string>)
    ensures ChunksOf(doc, windows + [window]) == ChunksOf(doc, windows) + [MakeChunk(doc, |windows|, window)]
  {
  }

  lemma AppendAssoc<T>(a: seq<T>, b: seq<T>, c: seq<T>)
    ensures a + b + c == a + (b + c)
  {
  }

  lemma MulSucc(k: nat, d: nat)
    ensures (k + 1) * d == k * d + d
  {
  }

  lemma MulDiv(k: nat, d: nat)
    requires d > 0
    ensures (k * d) / d == k
  {
    DivUnique(k * d, d, k, 0);
  }

  lemma DivUnique(a: int, d: int, q: int, r: int)
    requires 0 < d && 0 <= r < d && a == q * d + r
    ensures a / d == q
  {
    var q', r' := a / d, a % d;
    assert (q - q') * d == r' - r;
    MulBounds(q - q', d);
  }

  lemma MulBounds(x: int, d: int)
    requires d > 0
    ensures x >= 1 ==> x * d >= d
    ensures x <= -1 ==> x * d <= -d
  {
  }

  /** One step of `range(0, len(words), size)`: the windows from offset i on are
      `words[i:i + size]` followed by the windows from offset i + size on. */
  lemma WindowsStep(words: seq<string>, size: nat, i: nat)
    requires size > 0 && i < |words|
    ensures Windows(words[i..], size)
         == [words[i..Min(i + size, |words|)]] + Windows(words[Min(i + size, |words|)..], size)
  {
    var n := Min(size, |words| - i);
    assert words[i..][..n] == words[i..Min(i + size, |words|)];
    assert words[i..][n..] == words[Min(i + size, |words|)..];
  }

  /** Python's `chunk_document(document, chunk_size)`: a step of 0 makes `range`
      raise; a negative step gives an empty range and so no chunks; a positive
      step gives the chunks of `Chunks`. */
  method ChunkDocument(doc: Document, chunkSize: int) returns (r: Result<seq<Chunk>, Error>)
    ensures chunkSize == 0 <==> r.Failure?
    ensures chunkSize == 0 ==> r.error == ZeroStep
    ensures chunkSize < 0 ==> r == Success([])
    ensures chunkSize > 0 ==> r == Success(Chunks(doc, chunkSize))
  {
    if chunkSize == 0 {
      return Failure(ZeroStep);
    }
    var words := Split(doc.content);
    var chunks: seq<Chunk> := [];
    if chunkSize < 0 {
      // range(0, len(words), chunkSize) is empty when the step is negative
      return Success(chunks);
    }
    ghost var windows := Windows(words, chunkSize);
    ghost var done: seq<seq<string>> := [];
    var i := 0;
    while i < |words|
      invariant i == |done| * chunkSize
      invariant done + Windows(words[Min(i, |words|)..], chunkSize) == windows
      invariant chunks == ChunksOf(doc, done)
    {
      var chunkWords := words[i..Min(i + chunkSize, |words|)];
      var k := i / chunkSize;
      MulDiv(|done|, chunkSize);
      WindowsStep(words, chunkSize, i);
      AppendAssoc(done, [chunkWords], Windows(words[Min(i + chunkSize, |words|)..], chunkSize));
      MulSucc(|done|, chunkSize);
      ChunksOfSnoc(doc, done, chunkWords);
      chunks := chunks + [MakeChunk(doc, k, chunkWords)];
      done := done + [chunkWords];
      i := i + chunkSize;
    }
    assert words[Min(i, |words|)..] == [];
    assert done == windows;
    return Success(chunks);
  }

  lemma {:induction false} WindowsFlatten(words: seq<string>, size: nat)
    requires size > 0
    ensures Flatten(Windows(words, size)) == words
    decreases |words|
  {
    if words != [] {
      var n := Min(size, |words|);
      WindowsFlatten(words[n..], size);
      assert Windows(words, size)[1..] == Windows(words[n..], size);
      assert words == words[..n] + words[n..];
    }
  }

  /** Every window holds between 1 and `size` words, and all but the last exactly `size`. */
  lemma {:induction false} WindowsSizes(words: seq<string>, size: nat)
    requires size > 0
    ensures var ws := Windows(words, size);
      forall j :: 0 <= j < |ws| ==> 1 <= |ws[j]| <= size && (j < |ws| - 1 ==> |ws[j]| == size)
    decreases |words|
  {
    if words != [] {
      var n := Min(size, |words|);
      WindowsSizes(words[n..], size);
      var ws := Windows(words, size);
      assert ws[1..] == Windows(words[n..], size);
      forall j | 0 <= j < |ws|
        ensures 1 <= |ws[j]| <= size && (j < |ws| - 1 ==> |ws[j]| == size)
      {
        if j > 0 {
          assert ws[j] == ws[1..][j - 1];
        } else if |ws| > 1 {
          assert words[n..] != [];
        }
      }
    }
  }

  /** There are `ceil(len(words) / size)` windows. */
  lemma {:induction false} WindowsCount(words: seq<string>, size: nat)
    requires size > 0
    ensures |Windows(words, size)| == (|words| + size - 1) / size
    decreases |words|
  {
    var n := |words|;
    if n == 0 {
      DivUnique(size - 1, size, 0, size - 1);
    } else if n <= size {
      assert words[n..] == [];
      DivUnique(n + size - 1, size, 1, n - 1);
    } else {
      WindowsCount(words[size..], size);
      assert |Windows(words, size)| == 1 + |Windows(words[size..], size)|;
      CeilStep(n - size, size);
    }
  }

  /** Adding `d` items adds one to `ceil(m / d)`. */
  lemma CeilStep(m: nat, d: nat)
    requires d > 0
    ensures (m + d + d - 1) / d == (m + d - 1) / d + 1
  {
    var q, r := (m + d - 1) / d, (m + d - 1) % d;
    MulSucc(q, d);
    DivUnique(m + d + d - 1, d, q + 1, r);
  }

  /** Window j is `words[j*size : j*size + size]`, as the source slices it. */
  lemma WindowAt(words: seq<string>, size: nat, j: nat)
    requires size > 0 && j < |Windows(words, size)|
    ensures j * size < |words|
    ensures Windows(words, size)[j] == words[j * size..Min(j * size + size, |words|)]
  {
    WindowSlice(words, size, j, j * size);
  }

  /** `WindowAt` with the window's offset `lo == j * size` given by name. */
  lemma {:induction false} WindowSlice(words: seq<string>, size: nat, j: nat, lo: nat)
    requires size > 0 && j < |Windows(words, size)| && lo == j * size
    ensures lo < |words| && Windows(words, size)[j] == words[lo..Min(lo + size, |words|)]
    decreases j
  {
    if j > 0 {
      var n := |words|;
      var rest := words[Min(size, n)..];
      assert Windows(words, size)[j] == Windows(rest, size)[j - 1];
      MulSucc(j - 1, size);
      WindowSlice(rest, size, j - 1, lo - size);
      assert size < n && |rest| == n - size;
      var hi := Min(lo, |rest|);
      assert rest[lo - size..hi] == words[lo..hi + size];
    }
  }

  lemma {:induction false} WindowsOfWords(words: seq<string>, size: nat)
    requires size > 0
    requires AllWords(words)
    ensures forall j :: 0 <= j < |Windows(words, size)| ==> AllWords(Windows(words, size)[j])
    decreases |words|
  {
    if words != [] {
      var n := Min(size, |words|);
      WindowsOfWords(words[n..], size);
      var ws := Windows(words, size);
      assert ws[1..] == Windows(words[n..], size);
      forall j | 0 <= j < |ws|
        ensures AllWords(ws[j])
      {
        if j > 0 {
          assert ws[j] == ws[1..][j - 1];
        }
      }
    }
  }

  /** The words of a document's chunks, one list per chunk in index order. */
  function ChunkWords(chunks: seq<Chunk>): (wss: seq<seq<string>>)
    ensures |wss| == |chunks|
  {
    seq(|chunks|, j requires 0 <= j < |chunks| => Split(chunks[j].content))
  }

  /** Splitting a chunk's text gives back exactly its word window. */
  lemma ChunkWordsAreWindows(doc: Document, size: nat)
    requires size > 0
    ensures ChunkWords(Chunks(doc, size)) == Windows(Split(doc.content), size)
  {
    var words := Split(doc.content);
    var ws := Windows(words, size);
    var cs := Chunks(doc, size);
    WindowsOfWords(words, size);
    forall j | 0 <= j < |ws|
      ensures ChunkWords(cs)[j] == ws[j]
    {
      assert AllWords(ws[j]);
      SplitJoin(ws[j]);
    }
  }

  /** Chunking is lossless and order-preserving on words: the word lists of the
      chunks, concatenated in index order, are exactly `content.split()`. */
  lemma ChunksLossless(doc: Document, size: nat)
    requires size > 0
    ensures Flatten(ChunkWords(Chunks(doc, size))) == Split(doc.content)
  {
    ChunkWordsAreWindows(doc, size);
    WindowsFlatten(Split(doc.content), size);
  }

  /** Chunk k holds `words[k*size : k*size + size]`; every chunk has between 1 and
      `size` words and every chunk but the last exactly `size`. */
  lemma ChunkSizes(doc: Document, size: nat)
    requires size > 0
    ensures var words := Split(doc.content);
      var wss := ChunkWords(Chunks(doc, size));
      forall k :: 0 <= k < |wss| ==>
        && k * size < |words|
        && wss[k] == words[k * size..Min(k * size + size, |words|)]
        && 1 <= |wss[k]| <= size
        && (k < |wss| - 1 ==> |wss[k]| == size)
  {
    var words := Split(doc.content);
    ChunkWordsAreWindows(doc, size);
    WindowsSizes(words, size);
    forall k | 0 <= k < |Windows(words, size)|
      ensures k * size < |words|
      ensures Windows(words, size)[k] == words[k * size..Min(k * size + size, |words|)]
    {
      WindowAt(words, size, k);
    }
  }

  /** A document with 1 to `size` words gives exactly one chunk, holding all its words. */
  lemma OneChunk(doc: Document, size: nat)
    requires size > 0 && 1 <= |Split(doc.content)| <= size
    ensures Chunks(doc, size) == [MakeChunk(doc, 0, Split(doc.content))]
  {
    var words := Split(doc.content);
    assert words[..|words|] == words;
    assert Windows(words[|words|..], size) == [];
    assert Windows(words, size) == [words];
  }

  /** A document with n words has `ceil(n / size)` chunks: none for no words,
      and a single chunk holding every word when 1 <= n <= size. */
  lemma ChunkCount(doc: Document, size: nat)
    requires size > 0
    ensures var n := |Split(doc.content)|;
      var chunks := Chunks(doc, size);
      && |chunks| == (n + size - 1) / size
      && (n == 0 ==> chunks == [])
      && (1 <= n <= size ==> |chunks| == 1 && Split(chunks[0].content) == Split(doc.content))
  {
    var words := Split(doc.content);
    WindowsCount(words, size);
    if 1 <= |words| <= size {
      OneChunk(doc, size);
      SplitJoin(words);
    }
  }

  /** Chunk k is `{doc_id}_chunk_{k}` with `chunk_index` k, so the ids of one
      document's chunks are pairwise distinct. */
  lemma ChunkIdsDistinct(doc: Document, size: nat)
    requires size > 0
    ensures var chunks := Chunks(doc, size);
      && (forall k :: 0 <= k < |chunks| ==>
            chunks[k].id == doc.id + "_chunk_" + NatToString(k)
            && chunks[k].metadata["chunk_index"] == Int(k))
      && (forall i, j :: 0 <= i < j < |chunks| ==> chunks[i].id != chunks[j].id)
  {
    var chunks := Chunks(doc, size);
    forall i, j | 0 <= i < j < |chunks|
      ensures chunks[i].id != chunks[j].id
    {
      var prefix := doc.id + "_chunk_";
      if chunks[i].id == chunks[j].id {
        assert (prefix + NatToString(i))[|prefix|..] == NatToString(i);
        assert (prefix + NatToString(j))[|prefix|..] == NatToString(j);
        NatToStringInjective(i, j);
      }
    }
  }

  /** Every chunk refers to its document, and its metadata is the document's
      front-matter with `source`, `title` and `chunk_index` set (overriding keys of
      the same name) and every other key unchanged. */
  lemma ChunkMetadataMerge(doc: Document, size: nat)
    requires size > 0
    ensures var chunks := Chunks(doc, size);
      forall k :: 0 <= k < |chunks| ==>
        var m := chunks[k].metadata;
        && chunks[k].documentId == doc.id
        && m.Keys == doc.metadata.Keys + {"source", "title", "chunk_index"}
        && m["source"] == Str(doc.filepath)
        && m["title"] == doc.title
        && m["chunk_index"] == Int(k)
        && (forall key :: key in doc.metadata && key != "source" && key != "title" && key != "chunk_index"
              ==> m[key] == doc.metadata[key])
  {
  }

  /** Chunk text is rebuilt with single spaces, so whitespace runs of the plain
      text are not reproduced: "a\nb" gives the chunk text "a b". */
  lemma ChunkTextCollapsesWhitespace(doc: Document)
    requires doc.content == "a\nb"
    ensures Chunks(doc, 500)[0].content == "a b"
    ensures Chunks(doc, 500)[0].content != doc.content
  {
    assert doc.content == "a" + ['\n'] + "b";
    SplitWordThenSeparator("a", '\n', "b");
    SplitOneWord("b");
    OneChunk(doc, 500);
    assert ["a", "b"][1..] == ["b"];
    assert Join(["a", "b"]) == "a" + " " + "b";
  }

  // ---------------------------------------------------------------------------
  // index_all_notes
  // ---------------------------------------------------------------------------

  /** The chunks one note file contributes: those of its document, or none when
      reading or parsing it raised. */
  function FileChunks(filepath: string, parse: Parse, md5Hex: string -> string): (chunks: seq<Chunk>)
  {
    match ExtractContent(filepath, parse, md5Hex)
    case Success(doc) => Chunks(doc, DefaultChunkSize)
    case Failure(_) => []
  }

  /** `FileChunks` with reading and hashing fixed: what each path contributes. */
  function PerFile(load: string -> Parse, md5Hex: string -> string): string -> seq<Chunk>
  {
    p => FileChunks(p, load(p), md5Hex)
  }

  /** The chunks of the files in `paths`, file by file in the given order. */
  function IndexedChunks(paths: seq<string>, load: string -> Parse, md5Hex: string -> string): seq<Chunk>
    decreases |paths|
  {
    if paths == [] then []
    else
      var last := paths[|paths| - 1];
      IndexedChunks(paths[..|paths| - 1], load, md5Hex) + FileChunks(last, load(last), md5Hex)
  }

  /** Python's `index_all_notes` over the discovered `paths`; `load` stands for
      reading and parsing one file. A file whose processing raises is skipped. */
  method IndexAllNotes(paths: seq<string>, load: string -> Parse, md5Hex: string -> string)
    returns (allChunks: seq<Chunk>)
    ensures allChunks == IndexedChunks(paths, load, md5Hex)
  {
    allChunks := [];
    for n := 0 to |paths|
      invariant allChunks == IndexedChunks(paths[..n], load, md5Hex)
    {
      var filepath := paths[n];
      assert paths[..n + 1][..n] == paths[..n];
      var document := ExtractContent(filepath, load(filepath), md5Hex);
      if document.Success? {
        var chunks := ChunkDocument(document.value, DefaultChunkSize);
        if chunks.Success? {
          allChunks := allChunks + chunks.value;
        }
      }
    }
    assert paths[..|paths|] == paths;
  }

  /** The result is the concatenation, in discovery order, of every file's chunks. */
  lemma {:induction false} IndexedChunksInOrder(paths: seq<string>, load: string -> Parse, md5Hex: string -> string)
    ensures IndexedChunks(paths, load, md5Hex) == FlatMap(paths, PerFile(load, md5Hex))
    decreases |paths|
  {
    var f := PerFile(load, md5Hex);
    if paths == [] {
      assert FlatMap(paths, f) == Flatten([]);
    } else {
      var init := paths[..|paths| - 1];
      var last := paths[|paths| - 1];
      assert paths == init + [last];
      calc {
        IndexedChunks(paths, load, md5Hex);
        IndexedChunks(init, load, md5Hex) + f(last);
        { IndexedChunksInOrder(init, load, md5Hex); }
        FlatMap(init, f) + f(last);
        { FlatMapSnoc(init, last, f); }
        FlatMap(paths, f);
      }
    }
  }

  /** A file that cannot be read or parsed contributes no chunks and does not stop
      the run: the files after it are indexed as if it were absent. */
  /** Indexing two lists of paths one after the other gives the same chunks, in
      the same order, as indexing their concatenation. */
  lemma IndexedChunksAppend(a: seq<string>, b: seq<string>, load: string -> Parse, md5Hex: string -> string)
    ensures IndexedChunks(a + b, load, md5Hex) == IndexedChunks(a, load, md5Hex) + IndexedChunks(b, load, md5Hex)
  {
    IndexedChunksInOrder(a + b, load, md5Hex);
    IndexedChunksInOrder(a, load, md5Hex);
    IndexedChunksInOrder(b, load, md5Hex);
    FlatMapAppend(a, b, PerFile(load, md5Hex));
  }

  /** A file that cannot be read or parsed contributes no chunks and does not stop
      the run: the files after it are indexed as if it were absent. */
  lemma FailedFileSkipped(before: seq<string>, bad: string, after: seq<string>, load: string -> Parse, md5Hex: string -> string)
    requires load(bad).Unreadable?
    ensures IndexedChunks(before + [bad] + after, load, md5Hex) == IndexedChunks(before + after, load, md5Hex)
  {
    UnreadableContributesNothing(bad, load, md5Hex);
    IndexedChunksInOrder(before + [bad] + after, load, md5Hex);
    IndexedChunksInOrder(before + after, load, md5Hex);
    FlatMapSkip(before, bad, after, PerFile(load, md5Hex));
  }

  lemma UnreadableContributesNothing(bad: string, load: string -> Parse, md5Hex: string -> string)
    requires load(bad).Unreadable?
    ensures PerFile(load, md5Hex)(bad) == []
  {
  }

  /** Every indexed chunk comes from a file that was read successfully, and names
      that file's document id. */
  lemma {:induction false} IndexedChunksFromReadableFiles(paths: seq<string>, load: string -> Parse, md5Hex: string -> string)
    ensures forall c :: c in IndexedChunks(paths, load, md5Hex) ==>
      exists i :: 0 <= i < |paths| && load(paths[i]).Parsed? && c.documentId == DocumentId(paths[i], md5Hex)
    decreases |paths|
  {
    if paths != [] {
      var init := paths[..|paths| - 1];
      var last := paths[|paths| - 1];
      IndexedChunksFromReadableFiles(init, load, md5Hex);
      forall c | c in IndexedChunks(paths, load, md5Hex)
        ensures exists i :: 0 <= i < |paths| && load(paths[i]).Parsed? && c.documentId == DocumentId(paths[i], md5Hex)
      {
        if c in IndexedChunks(init, load, md5Hex) {
          var i :| 0 <= i < |init| && load(init[i]).Parsed? && c.documentId == DocumentId(init[i], md5Hex);
          assert paths[i] == init[i];
        } else {
          assert c in FileChunks(last, load(last), md5Hex);
          var doc := ExtractContent(last, load(last), md5Hex).value;
          ChunkMetadataMerge(doc, DefaultChunkSize);
          assert paths[|paths| - 1] == last;
        }
      }
    }
  }

  // ---------------------------------------------------------------------------
  // The three parallel lists handed to the vector store (cli.py, `init`)
  // ---------------------------------------------------------------------------

  datatype Columns = Columns(documents: seq<string>, metadatas: seq<Metadata>, ids: seq<string>)

  /** `[c["content"] for c in chunks]`, `[c["metadata"] ...]`, `[c["id"] ...]`. */
  function Columnize(chunks: seq<Chunk>): (cols: Columns)
    ensures |cols.documents| == |chunks| && |cols.metadatas| == |chunks| && |cols.ids| == |chunks|
    ensures forall i :: 0 <= i < |chunks| ==>
      chunks[i] == Chunk(cols.ids[i], chunks[i].documentId, cols.documents[i], cols.metadatas[i])
  {
    Columns(
      seq(|chunks|, i requires 0 <= i < |chunks| => chunks[i].content),
      seq(|chunks|, i requires 0 <= i < |chunks| => chunks[i].metadata),
      seq(|chunks|, i requires 0 <= i < |chunks| => chunks[i].id))
  }
}
