/**
 * `RagSystem.process_markdown_file` and `RagSystem.update_documentation`
 * (ragdocs_api/rag_system.py): a markdown file becomes one chunk per section, and an
 * update re-indexes whole files, removing every record of a deleted or modified file
 * and appending fresh chunks for new and modified ones. The vector collection is a
 * sequence of records, the file system a map from path to content and hash, and the
 * embedder a function.
 */
module Indexing {
  import opened Wrappers
  import opened Strings
  import opened Markdown
  import opened CodeBlocks
  import opened Sections
  import opened Categories
  import opened Tracking

  /** One record of the collection: a section with its file, technology, category and embedding. */
  datatype Chunk = Chunk(
    content: string,
    technology: string,
    filePath: string,
    fileHash: string,
    sectionTitle: string,
    sectionLevel: int,
    category: string,
    embeddings: seq<real>)

  /** What reading a file gives: its text and the hash of its bytes. */
  datatype SourceFile = SourceFile(content: string, hash: string)

  /** The category table `RagSystem` hands to its processor. */
  const CategoryKeywords: seq<Category> := [
    Category("deployment", {"deployment", "install", "setup", "configuration"}),
    Category("performance", {"performance", "speed", "latency", "throughput"}),
    Category("features", {"feature", "functionality", "capability"}),
    Category("scalability", {"scale", "scalability", "distributed", "cluster"}),
    Category("security", {"security", "authentication", "encryption"}),
    Category("integration", {"integration", "connector", "plugin"})
  ]

  /** The text the sections are cut from: code blocks replaced first, then the front matter split off. */
  function BodyOf(content: string, safeLoad: string -> YamlValue): string {
    ExtractFrontmatter(Cleaned(content), safeLoad).1
  }

  /** The chunk of one section: preprocessed again, categorised by its preprocessed text and title, embedded. */
  function ChunkOf(section: Section, filePath: string, fileHash: string, technology: string,
                   categories: seq<Category>, encode: string -> seq<real>): Chunk
  {
    var p := PreprocessSection(section.content, section.title, section.level);
    Chunk(p.content, technology, filePath, fileHash, p.title, p.level,
          CategoryOf(categories, Haystack(p.content, p.title)), encode(p.content))
  }

  /**
   * What `RagSystem` holds to turn text into chunks: the keyword table of its
   * `MarkdownProcessor`, the YAML loader front matter is read with, and the embedder.
   */
  datatype Pipeline = Pipeline(categories: seq<Category>, safeLoad: string -> YamlValue, encode: string -> seq<real>)

  /** The chunks of a file, one per section of its body, in order. */
  function ChunksOf(file: SourceFile, filePath: string, technology: string, p: Pipeline): seq<Chunk> {
    var ss := SectionsOf(BodyOf(file.content, p.safeLoad));
    seq(|ss|, i requires 0 <= i < |ss| => ChunkOf(ss[i], filePath, file.hash, technology, p.categories, p.encode))
  }

  /**
   * `process_markdown_file`: read the file (a path with no file fails), clean its code
   * blocks, split off the front matter, cut the body into sections and turn each
   * section into a chunk.
   */
  method ProcessMarkdownFile(docs: map<string, SourceFile>, filePath: string, technology: string, p: Pipeline)
    returns (r: Result<seq<Chunk>>)
    ensures r.Ok? <==> filePath in docs
    ensures r.Ok? ==> r.value == ChunksOf(docs[filePath], filePath, technology, p)
  {
    if filePath !in docs {
      return Err("Failed to process file " + filePath);
    }
    var file := docs[filePath];
    var processedContent := CleanCodeBlocks(file.content);
    var (metadata, body) := ExtractFrontmatter(processedContent, p.safeLoad);
    var sections := ExtractSections(body);
    ghost var all := ChunksOf(file, filePath, technology, p);
    var chunks: seq<Chunk> := [];
    for i := 0 to |sections|
      invariant chunks == all[..i]
    {
      var processed := PreprocessSection(sections[i].content, sections[i].title, sections[i].level);
      var category := DetectCategory(p.categories, processed.content, processed.title);
      PrefixGrows(all, i);
      chunks := chunks + [Chunk(processed.content, technology, filePath, file.hash, processed.title,
                                processed.level, category, p.encode(processed.content))];
    }
    assert all[..|sections|] == all;
    return Ok(chunks);
  }

  /**
   * Each chunk of a file carries the file's path and hash and the call's technology; its
   * level is its section's, its title and text are the section's cut again to the
   * limits (at most three characters over them), its category is the one its text and
   * title score for, which is "general" or a category name of the table, and its
   * embedding is that of its text.
   */
  lemma ChunkFields(file: SourceFile, filePath: string, technology: string, p: Pipeline, i: nat)
    requires i < |ChunksOf(file, filePath, technology, p)|
    ensures var ss := SectionsOf(BodyOf(file.content, p.safeLoad));
      var c := ChunksOf(file, filePath, technology, p)[i];
      && |ss| == |ChunksOf(file, filePath, technology, p)|
      && c.filePath == filePath && c.fileHash == file.hash && c.technology == technology
      && c.sectionLevel == ss[i].level
      && c.sectionTitle == Truncate(ss[i].title, MaxTitleLength, true)
      && c.content == Truncate(ss[i].content, MaxContentLength, true)
      && |c.sectionTitle| <= MaxTitleLength + 3 && |c.content| <= MaxContentLength + 3
      && c.category == CategoryOf(p.categories, Haystack(c.content, c.sectionTitle))
      && (c.category == General || exists k :: 0 <= k < |p.categories| && c.category == p.categories[k].name)
      && c.embeddings == p.encode(c.content)
  {
    var ss := SectionsOf(BodyOf(file.content, p.safeLoad));
    PreprocessBounds(ss[i].content, ss[i].title, ss[i].level);
    var c := ChunksOf(file, filePath, technology, p)[i];
    CategoryIsKnown(p.categories, Haystack(c.content, c.sectionTitle));
  }

  // ---------------------------------------------------------------------------
  // The collection

  /** The records of `file`, in collection order. */
  function RecordsOf(c: seq<Chunk>, file: string): seq<Chunk> {
    if |c| == 0 then []
    else RecordsOf(c[..|c| - 1], file) + if c[|c| - 1].filePath == file then [c[|c| - 1]] else []
  }

  /** `collection.delete("file_path in [...]")`: the records of the listed files are dropped, the others kept in order. */
  function Without(c: seq<Chunk>, files: set<string>): seq<Chunk> {
    if |c| == 0 then []
    else Without(c[..|c| - 1], files) + if c[|c| - 1].filePath in files then [] else [c[|c| - 1]]
  }

  /** The chunks of the listed files, file by file; each file must be readable. */
  function AllChunks(files: seq<string>, docs: map<string, SourceFile>, technology: string, p: Pipeline): seq<Chunk>
    requires forall f :: f in files ==> f in docs
  {
    if |files| == 0 then []
    else
      var last := files[|files| - 1];
      AllChunks(files[..|files| - 1], docs, technology, p) + ChunksOf(docs[last], last, technology, p)
  }

  lemma {:induction false} RecordsOfAppend(a: seq<Chunk>, b: seq<Chunk>, file: string)
    ensures RecordsOf(a + b, file) == RecordsOf(a, file) + RecordsOf(b, file)
    decreases |b|
  {
    if |b| == 0 {
      assert a + b == a;
    } else {
      assert (a + b)[..|a + b| - 1] == a + b[..|b| - 1];
      RecordsOfAppend(a, b[..|b| - 1], file);
    }
  }

  /** Deleting the records of a set of files leaves no record of them and every other file's records as they were. */
  lemma {:induction false} WithoutRecords(c: seq<Chunk>, files: set<string>, file: string)
    ensures RecordsOf(Without(c, files), file) == if file in files then [] else RecordsOf(c, file)
  {
    if |c| > 0 {
      var init := c[..|c| - 1];
      var last := c[|c| - 1];
      WithoutRecords(init, files, file);
      RecordsOfAppend(Without(init, files), if last.filePath in files then [] else [last], file);
    }
  }

  /** Deleting with an empty list of files keeps the collection. */
  lemma {:induction false} WithoutNothing(c: seq<Chunk>)
    ensures Without(c, {}) == c
  {
    if |c| > 0 {
      WithoutNothing(c[..|c| - 1]);
    }
  }

  /** Records that all belong to `path` are all of `path`'s records and none of any other file's. */
  lemma {:induction false} OwnRecords(cs: seq<Chunk>, path: string, file: string)
    requires forall k :: 0 <= k < |cs| ==> cs[k].filePath == path
    ensures RecordsOf(cs, file) == if file == path then cs else []
  {
    if |cs| > 0 {
      OwnRecords(cs[..|cs| - 1], path, file);
      assert cs == cs[..|cs| - 1] + [cs[|cs| - 1]];
    }
  }

  /** Among the chunks of a list of distinct files, the records of one file are its own chunks, or none. */
  lemma {:induction false} AllChunksRecords(files: seq<string>, docs: map<string, SourceFile>, technology: string,
                                            p: Pipeline, file: string)
    requires forall f :: f in files ==> f in docs
    requires Distinct(files)
    ensures RecordsOf(AllChunks(files, docs, technology, p), file) ==
      if file in files then ChunksOf(docs[file], file, technology, p) else []
  {
    if |files| > 0 {
      var init := files[..|files| - 1];
      var last := files[|files| - 1];
      assert files == init + [last];
      assert Distinct(init);
      AllChunksRecords(init, docs, technology, p, file);
      var cs := ChunksOf(docs[last], last, technology, p);
      RecordsOfAppend(AllChunks(init, docs, technology, p), cs, file);
      forall k | 0 <= k < |cs| ensures cs[k].filePath == last {
        ChunkFields(docs[last], last, technology, p, k);
      }
      OwnRecords(cs, last, file);
    }
  }

  /**
   * The collection after a successful re-index, file by file: a file whose records were
   * removed keeps none of them, every file's fresh chunks follow, and the records of any
   * other file stay as they were.
   */
  lemma ReindexedRecords(stored: seq<Chunk>, removed: set<string>, files: seq<string>, docs: map<string, SourceFile>,
                         technology: string, p: Pipeline, file: string)
    requires forall f :: f in files ==> f in docs
    requires Distinct(files)
    ensures RecordsOf(Without(stored, removed) + AllChunks(files, docs, technology, p), file) ==
      (if file in removed then [] else RecordsOf(stored, file)) +
      (if file in files then ChunksOf(docs[file], file, technology, p) else [])
  {
    RecordsOfAppend(Without(stored, removed), AllChunks(files, docs, technology, p), file);
    WithoutRecords(stored, removed, file);
    AllChunksRecords(files, docs, technology, p, file);
  }

  // ---------------------------------------------------------------------------
  // update_documentation

  /**
   * The loop of `update_documentation` over the files to process: each file's chunks are
   * appended in turn, and the first file that cannot be read ends it with an error.
   */
  /** When the first `i` files and file `i` are all readable, so are the first `i + 1`. */
  lemma ReadableExtends(files: seq<string>, i: nat, docs: map<string, SourceFile>)
    requires i < |files| && files[i] in docs
    requires forall f :: f in files[..i] ==> f in docs
    ensures forall f :: f in files[..i + 1] ==> f in docs
  {
    assert files[..i + 1] == files[..i] + [files[i]];
  }

  method ProcessFiles(files: seq<string>, docs: map<string, SourceFile>, technology: string, p: Pipeline)
    returns (r: Result<seq<Chunk>>)
    ensures r.Ok? <==> forall f :: f in files ==> f in docs
    ensures r.Ok? ==> r.value == AllChunks(files, docs, technology, p)
  {
    var allChunks: seq<Chunk> := [];
    for i := 0 to |files|
      invariant forall f :: f in files[..i] ==> f in docs
      invariant allChunks == AllChunks(files[..i], docs, technology, p)
    {
      var chunks := ProcessMarkdownFile(docs, files[i], technology, p);
      if chunks.Err? {
        return Err(chunks.error);
      }
      ReadableExtends(files, i, docs);
      assert files[..i + 1][..i] == files[..i];
      allChunks := allChunks + chunks.value;
    }
    assert files[..|files|] == files;
    return Ok(allChunks);
  }

  class RagSystem {
    var collection: seq<Chunk>
    var availableTechnologies: set<string>
    const fileTracker: FileTracker
    const pipeline: Pipeline

    /** A system over an existing collection and tracker, processing with the category table above, with no technology yet. */
    constructor(stored: seq<Chunk>, tracker: FileTracker, safeLoad: string -> YamlValue, encode: string -> seq<real>)
      ensures collection == stored && availableTechnologies == {}
      ensures fileTracker == tracker && pipeline == Pipeline(CategoryKeywords, safeLoad, encode)
    {
      collection := stored;
      availableTechnologies := {};
      fileTracker := tracker;
      pipeline := Pipeline(CategoryKeywords, safeLoad, encode);
    }

    /**
     * Incremental update of one technology. The tracker commits its new map first,
     * whatever happens next. Without any change, nothing else is touched. Otherwise the
     * records of deleted and modified files are removed, the new and modified files are
     * processed in that order, and only when every one of them could be read are their
     * chunks appended and the technology marked available; a file that cannot be read
     * fails the update with the removals already applied.
     */
    method UpdateDocumentation(scan: seq<ScanEntry>, technology: string, now: int, docs: map<string, SourceFile>)
      returns (outcome: Outcome)
      modifies this, fileTracker
      ensures fileTracker.fileMetadata == Rescanned(old(fileTracker.fileMetadata), scan, technology, now)
      ensures var v := ScanPass(old(fileTracker.fileMetadata), scan, technology, now, |scan|);
        var deleted := DeletedSet(v, technology);
        var toProcess := v.newFiles + v.modifiedFiles;
        var kept := Without(old(collection), deleted + Elems(v.modifiedFiles));
        && (v.newFiles == [] && v.modifiedFiles == [] && deleted == {} ==>
              outcome == Outcome.Pass && collection == old(collection) && availableTechnologies == old(availableTechnologies))
        && (!(v.newFiles == [] && v.modifiedFiles == [] && deleted == {}) ==>
              && (outcome.Pass? <==> forall f :: f in toProcess ==> f in docs)
              && (outcome.Pass? ==>
                    && collection == kept + AllChunks(toProcess, docs, technology, pipeline)
                    && availableTechnologies == old(availableTechnologies) + {technology})
              && (outcome.Fail? ==> collection == kept && availableTechnologies == old(availableTechnologies)))
    {
      var newFiles, modifiedFiles, deletedFiles := fileTracker.GetModifiedFiles(scan, technology, now);
      if newFiles == [] && modifiedFiles == [] && deletedFiles == [] {
        return Outcome.Pass;
      }
      ghost var v := ScanPass(old(fileTracker.fileMetadata), scan, technology, now, |scan|);
      if deletedFiles != [] {
        HeadIn(deletedFiles);
        assert deletedFiles[0] in DeletedSet(v, technology);
      }
      assert !(v.newFiles == [] && v.modifiedFiles == [] && DeletedSet(v, technology) == {});
      var filesToRemove := deletedFiles + modifiedFiles;
      assert Elems(filesToRemove) == Elems(deletedFiles) + Elems(modifiedFiles);
      if filesToRemove != [] {
        collection := Without(collection, Elems(filesToRemove));
      } else {
        assert Elems(filesToRemove) == {};
        WithoutNothing(collection);
      }
      var filesToProcess := newFiles + modifiedFiles;
      var allChunks := ProcessFiles(filesToProcess, docs, technology, pipeline);
      if allChunks.Err? {
        return Fail(allChunks.error);
      }
      if allChunks.value != [] {
        collection := collection + allChunks.value;
      } else {
        assert collection + allChunks.value == collection;
      }
      availableTechnologies := availableTechnologies + {technology};
      return Outcome.Pass;
    }
  }

  /**
   * After a successful update with changes, file by file: a deleted file has no record
   * left; a modified file has exactly its fresh chunks; a new file keeps whatever
   * records it already had and gains its fresh chunks; any other file keeps its records.
   */
  lemma UpdatedRecords(cache0: Cache, scan: seq<ScanEntry>, technology: string, now: int,
                       stored: seq<Chunk>, docs: map<string, SourceFile>, p: Pipeline, file: string)
    requires DistinctPaths(scan)
    requires var v := ScanPass(cache0, scan, technology, now, |scan|);
      forall f :: f in v.newFiles + v.modifiedFiles ==> f in docs
    ensures var v := ScanPass(cache0, scan, technology, now, |scan|);
      var deleted := DeletedSet(v, technology);
      var toProcess := v.newFiles + v.modifiedFiles;
      var result := Without(stored, deleted + Elems(v.modifiedFiles)) + AllChunks(toProcess, docs, technology, p);
      var chunks := if file in docs then ChunksOf(docs[file], file, technology, p) else [];
      && (file in deleted ==> RecordsOf(result, file) == [])
      && (file in v.modifiedFiles ==> RecordsOf(result, file) == chunks)
      && (file in v.newFiles ==> RecordsOf(result, file) == RecordsOf(stored, file) + chunks)
      && (file !in deleted && file !in toProcess ==> RecordsOf(result, file) == RecordsOf(stored, file))
  {
    var v := ScanPass(cache0, scan, technology, now, |scan|);
    ProcessListDistinct(cache0, scan, technology, now);
    Partition(cache0, scan, technology, now);
    ReindexedRecords(stored, DeletedSet(v, technology) + Elems(v.modifiedFiles), v.newFiles + v.modifiedFiles,
                     docs, technology, p, file);
  }
}
