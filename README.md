# nb-rag note indexing and retrieval, modelled in Dafny

This project models the core of a local notes search tool. The tool reads a tree of
Markdown notes and turns each note into a document record. It splits the note's
plain text into chunks of at most 500 words, each with a stable id and merged
metadata. It coerces the metadata into the value types the vector store accepts
and hands the chunks to the store. On the query side, it flattens the store's
batched answer into result records and lays them out for display: rank, title,
source, similarity line and a 300-character preview.

Modules, one per source file or shared concern:

- `Wrappers` (wrappers.dfy): `Option` and `Result`. A Python `None` or a raised exception becomes one of these.
- `PyText` (pytext.dfy): the Python behaviour the indexer relies on.
  - `str.split()` with Python's whitespace set, and `" ".join`.
  - `str(n)`, `s[:n]`, `Path.name` and `Path.stem`.
- `Values` (values.dfy): front-matter values and metadata dictionaries.
- `Indexer` (indexer.dfy): `extract_content`'s record, `chunk_document`, `index_all_notes`, and the three parallel lists `init` builds.
- `Scenarios` (scenarios.dfy): the one-note corpus example, worked through.
- `ChromaDb` (chroma_db.dfy): `_prepare_metadatas` and `add_documents`.
- `Query` (query.dfy): `search` and the display rules of `display_results`.

Code that updates state step by step is modelled as methods with loops:
`chunk_document`, `index_all_notes`, `_prepare_metadatas`, `search` and
`display_results`. Each method is proved equal to a specification function or
to stated properties. Record building and the display rules are functions.

Where the code and its design description disagree, the model follows the code:

- Chunk text is `" ".join` of the window's words, so chunking is lossless on the
  word sequence but not on the text. Runs of whitespace, newlines included,
  become single spaces (`Indexer.ChunkTextCollapsesWhitespace`).
- Chunk metadata carries the raw front-matter. Values are sanitised only later,
  when `add_documents` hands them to the store.
- A `chunk_size` of 0 raises. A negative one gives an empty `range`, so no chunks.

## Model

| member | source | states |
|---|---|---|
| `PyText.Split` | source/indexer.py:50 | `content.split()` yields only non-empty, whitespace-free words |
| `PyText.SplitKeepsEveryCharacter` | source/indexer.py:50 | splitting drops only whitespace: the words, concatenated, are the text's non-whitespace characters in order |
| `PyText.SplitJoin` | source/indexer.py:54-55 | splitting `" ".join(words)` gives back exactly `words` |
| `PyText.ParseNatToString` | source/indexer.py:57 | `int(str(k)) == k` for the chunk number k |
| `PyText.NatToStringInjective` | source/indexer.py:57 | distinct chunk numbers print differently |
| `PyText.FileName` | source/indexer.py:40 | `Path(p).name` is a '/'-free suffix of the path |
| `PyText.FileStem` | source/indexer.py:38 | `Path(p).stem` is a prefix of the file name |
| `Indexer.ExtractContent` | source/indexer.py:19-45 | unreadable notes raise; otherwise the record keeps path, name, plain text and front-matter, and `full_content` is the prefix of the raw text of length min(1000, len(raw)) |
| `Indexer.DocumentIdStable` | source/indexer.py:35-38 | the document id depends only on the path; it is the stem, '_' and 16 digest characters |
| `Indexer.TitleFallback` | source/indexer.py:41 | the title is the front-matter `title` if present, else the stem |
| `Indexer.ChunkDocument` | source/indexer.py:47-71 | step 0 raises; a negative step gives no chunks; a positive step gives exactly the chunk list `Chunks` |
| `Indexer.WindowsStep` | source/indexer.py:53-54 | each step of the range takes `words[i:i+size]` and continues at `i+size` |
| `Indexer.ChunksLossless` | source/indexer.py:50-55 | the chunks' word lists, concatenated in index order, are exactly `content.split()` |
| `Indexer.ChunkSizes` | source/indexer.py:53-54 | chunk k is `words[k*size : k*size+size]`, has 1 to `size` words, and all but the last have exactly `size` |
| `Indexer.ChunkCount` | source/indexer.py:53 | there are ceil(n/size) chunks: none for no words, one holding every word for 1..size words |
| `Indexer.OneChunk` | source/indexer.py:53-69 | a document of 1..size words yields a single chunk, number 0, of all its words |
| `Indexer.ChunkIdsDistinct` | source/indexer.py:57-67 | chunk k has id `{doc_id}_chunk_{k}` and `chunk_index` k; ids within a document are pairwise distinct |
| `Indexer.ChunkMetadataMerge` | source/indexer.py:59-68 | each chunk names its document; its metadata is the front-matter with `source`, `title`, `chunk_index` overriding, other keys unchanged |
| `Indexer.ChunkTextCollapsesWhitespace` | source/indexer.py:55 | the text "a\nb" becomes the chunk text "a b" |
| `Indexer.IndexAllNotes` | source/indexer.py:73-89 | the loop returns the chunks of the files in order, skipping files that raise |
| `Indexer.IndexedChunksInOrder` | source/indexer.py:80-84 | the result is the concatenation, in discovery order, of every file's chunks |
| `Indexer.IndexedChunksAppend` | source/indexer.py:80-84 | indexing two path lists one after the other equals indexing their concatenation |
| `Indexer.FailedFileSkipped` | source/indexer.py:81-87 | a failing file contributes nothing and does not stop the files after it |
| `Indexer.IndexedChunksFromReadableFiles` | source/indexer.py:80-84 | every indexed chunk belongs to a readable file's document |
| `Indexer.Columnize` | source/cli.py:56-58 | contents, metadatas and ids are three index-aligned lists as long as the chunk list |
| `Scenarios.SplitOneTwoThree` | source/indexer.py:50-55 | "one two three" splits into three words and joins back to itself |
| `Scenarios.SingleNoteScenario` | source/indexer.py:73-89 | one note titled Alpha with text "one two three" yields one chunk with that text, title Alpha, index 0 |
| `ChromaDb.SanitizeValue` | source/chroma_db.py:37-40 | every stored value is None, str, int, float or bool |
| `ChromaDb.Sanitized` | source/chroma_db.py:35-40 | a sanitised dictionary has exactly the input's keys and only primitive values |
| `ChromaDb.SanitizedValues` | source/chroma_db.py:37-40 | primitive values are kept; any other value becomes its `str()` text |
| `ChromaDb.SanitizedFixedPoint` | source/chroma_db.py:37-40 | sanitising leaves a dictionary unchanged exactly when all its values are primitive |
| `ChromaDb.SanitizedIdempotent` | source/chroma_db.py:37-40 | sanitising twice equals sanitising once |
| `ChromaDb.PrepareMetadatas` | source/chroma_db.py:31-42 | the nested loops return one sanitised dictionary per input, same length and order |
| `ChromaDb.SanitizedAll` | source/chroma_db.py:33-42 | the prepared list has the input's length; item i has item i's keys and only primitive values |
| `ChromaDb.SanitizedAllIdempotent` | source/chroma_db.py:33-42 | preparing an already prepared list returns it unchanged |
| `ChromaDb.AddDocuments` | source/chroma_db.py:44-53 | documents and ids reach the store unchanged, with the prepared metadatas |
| `Query.Search` | source/query.py:12-25 | falsy `documents` gives []; otherwise `len(documents[0])` records in store order; record i holds `documents[0][i]`, `metadatas[0][i]`, and `distances[0][i]` or None; short lists raise |
| `Query.Preview` | source/query.py:48-50 | content up to 300 characters is shown whole; longer content is `content[:300] + "..."`, 303 characters |
| `Query.PreviewBounded` | source/query.py:48-50 | a preview has at most 303 characters and shows a prefix of the content |
| `Query.PreviewIdempotent` | source/query.py:48-50 | previewing a preview changes nothing |
| `Query.DisplayTitle` | source/query.py:39 | the title is the metadata `title` when present, else "Untitled" |
| `Query.DisplaySource` | source/query.py:38 | the source is the metadata `source` when present, else "Unknown" |
| `Query.DisplayResults` | source/query.py:27-52 | the banner shows only for a non-empty query; no results prints the notice; otherwise entry i has rank i+1 and result i's title, source, distance and preview, with no reordering or filtering |

## Left out

- File discovery (`find_markdown_files`, source/indexer.py:14-17) is filesystem I/O. The discovered paths are an input, in whatever order the OS lists them.
- Reading a note and parsing it (source/indexer.py:21-32: `open`, `frontmatter.loads`, `markdown.markdown`, `BeautifulSoup.get_text`) are foreign libraries. Each file's outcome is a `Parse` value: the raw text, the front-matter and the plain text, or `Unreadable` for any exception on the way.
- The MD5 digest (source/indexer.py:35) is a function parameter `md5Hex`; only the `[:16]` slice of its hex form is modelled.
- `pathlib` normalisation is not modelled (trailing separators, `.` segments, Windows separators). A file's name is the text after the last '/'.
- The progress messages of `index_all_notes` and their success/failure counts (source/indexer.py:78, 85, 87) are output only.
- Python dictionaries keep insertion order; metadata here is an unordered `map`, so key order is not modelled.
- Float front-matter values are `real`s that are only carried, never computed on; NaN and infinities are not represented.
- The ChromaDB client, `get_or_create_collection`, `query`, `reset` and `get_stats` (source/chroma_db.py:8-29, 55-71) belong to the external store. `Collection` records only the batches handed to `add`. Its own checks, such as equal lengths and duplicate ids, are not modelled.
- `search`'s call to the store (source/query.py:14) is not modelled: `Search` takes the store's response as its input, so the `n_results` bound is the store's concern.
- Query.Search: the `TypeError` and `IndexError` that Python raises for a missing or short `metadatas`/`distances` list are one error, `MalformedResponse`.
- Query.Search: a `None` metadata entry in the store's answer is not represented; every metadata entry is a dictionary.
- The similarity value `1 - distance` and its `:.3f` formatting (source/query.py:45) are floating point and text formatting. An entry carries the distance the line is computed from, or None when no line is printed.
- The rich console, `Panel` and Markdown rendering (source/query.py:1-6, 29-32, 41-52) are terminal output. The printed content is returned as a `Screen` value.
- source/embedding.py is a wrapper over a sentence-embedding model producing float vectors.
- source/cli.py is command plumbing, except the three-list projection modelled by `Indexer.Columnize`.
