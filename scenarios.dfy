/** Worked examples of the indexer on concrete notes. */
module Scenarios {
  import opened PyText
  import opened Values
  import opened Indexer

  lemma SplitOneTwoThree()
    ensures Split("one two three") == ["one", "two", "three"]
    ensures Join(["one", "two", "three"]) == "one two three"
  {
    var words := ["one", "two", "three"];
    assert Join(words) == "one two three" by {
      assert words[1..] == ["two", "three"];
      assert words[1..][1..] == ["three"];
    }
    assert AllWords(words);
    SplitJoin(words);
  }

  /** A corpus of one note `notes/a.md` with front-matter `title: Alpha` and body
      text "one two three" indexes to exactly one chunk holding that text, titled
      "Alpha", with chunk index 0. */
  lemma SingleNoteScenario(load: string -> Parse, md5Hex: string -> string)
    requires load("notes/a.md").Parsed?
    requires load("notes/a.md").frontMatter == map["title" := Str("Alpha")]
    requires load("notes/a.md").plainText == "one two three"
    ensures |IndexedChunks(["notes/a.md"], load, md5Hex)| == 1
    ensures IndexedChunks(["notes/a.md"], load, md5Hex)[0].content == "one two three"
    ensures IndexedChunks(["notes/a.md"], load, md5Hex)[0].metadata["title"] == Str("Alpha")
    ensures IndexedChunks(["notes/a.md"], load, md5Hex)[0].metadata["chunk_index"] == Int(0)
    ensures IndexedChunks(["notes/a.md"], load, md5Hex)[0].metadata["source"] == Str("notes/a.md")
  {
    var path := "notes/a.md";
    var doc := ExtractContent(path, load(path), md5Hex).value;
    SplitOneTwoThree();
    assert Split(doc.content) == ["one", "two", "three"];
    OneChunk(doc, 500);
    assert FileChunks(path, load(path), md5Hex) == [MakeChunk(doc, 0, ["one", "two", "three"])];
    assert [path][..0] == [];
    ChunkMetadataMerge(doc, 500);
  }
}
