# RagDocs core in Dafny

RagDocs indexes markdown documentation for retrieval-augmented chat. It has four parts, each modelled here in its own form:

- **Markdown processing** (`MarkdownProcessor`, identical in `api/` and `ragdocs_api/`). It cuts text to the Milvus field limits, splits off YAML front matter and replaces fenced and indented code with placeholders. It then splits a document into sections at its `#` headings and picks each section's category by keyword counts.
- **Change tracking** (`FileTracker`, identical in both directories). It compares a directory scan with its cache of file metadata and reports the new, modified and deleted markdown files of one technology.
- **Indexing and search** (`RagSystem`):
  - `update_documentation` removes the records of deleted and modified files, then processes and inserts the new and modified files;
  - `process_markdown_file` turns a file into chunks;
  - `_build_filter_expression` writes the search filter;
  - the search loop groups hits by technology;
  - `get_categories` lists the category table.
- **Conversations** (`ConversationManager` and `generate_title`):
  - where a conversation is stored;
  - how grouped search results become the chat context and the sources;
  - which messages the chat engine sees;
  - how a generated title is cleaned;
  - how a turn is appended and saved;
  - how `process_message` branches between an existing and a new conversation.

Modules:
- `Wrappers`: `Option`, `Result` and `Outcome`.
- `Strings`: the Python string operations the core uses, with Python's whitespace set.
- `Markdown`: `truncate_text`, `extract_frontmatter` and `preprocess_section`.
- `CodeBlocks`: `clean_code_blocks`.
- `Sections`: `extract_sections`.
- `Categories`: `detect_category`.
- `Tracking`: the `FileTracker` class.
- `Indexing`: `process_markdown_file`, `update_documentation` and the `RagSystem` class.
- `Search`: the filter expression, the score and the grouping loop.
- `Conversations`: the conversation manager.

Two kinds of code are modelled differently:
- Code that updates state in place is a `class` whose methods carry `modifies` clauses: the tracker's metadata map, the system's collection and technology set, a conversation's messages, and the manager's directory of files.
- Every loop of the source is a `method` with a `while`/`for` loop, proved equal to a recursive specification function. The properties are lemmas about those functions.

Inputs that come from outside are parameters:
- the directory scan: a sequence of `(path, hash, mtime)` entries in walk order;
- the file contents, as a map from path to content and hash;
- the YAML loader;
- the sentence encoder;
- the search hits;
- the clock, the new uuid, the title model's reply and the chat engine.

## Model

| member | source | states |
|---|---|---|
| Strings.Find | ragdocs_api/markdown_processor.py:83 | `str.find`: -1, or an index at or after the start where the text occurs |
| Strings.FindFirst | ragdocs_api/markdown_processor.py:83 | the index found is the first occurrence at or after the start; -1 means there is none |
| Strings.LastIndexOf | ragdocs_api/markdown_processor.py:60 | `str.rfind` of a character: -1 exactly when it is absent, otherwise its last position |
| Strings.RStrip | ragdocs_api/markdown_processor.py:65 | a prefix of the text that does not end in whitespace, and only whitespace was removed |
| Strings.LStrip | ragdocs_api/markdown_processor.py:98 | a suffix of the text that does not start with whitespace, and only whitespace was removed |
| Strings.Strip | ragdocs_api/markdown_processor.py:98 | the result is a slice `s[a..b]` with only whitespace before `a` and after `b`, and it neither starts nor ends with whitespace |
| Strings.JoinSplit | ragdocs_api/markdown_processor.py:123-136 | joining the pieces of a split with the same separator gives back the text |
| Strings.SplitJoin | ragdocs_api/markdown_processor.py:123-136 | splitting a join of separator-free pieces gives back the pieces |
| Strings.RemoveChar | api/conversation_api.py:668 | `str.replace(c, "")`: the character is gone, every other character keeps its count, and a text without it is unchanged |
| Strings.RemoveCharAppend | api/conversation_api.py:668 | removing a character from a concatenation removes it from each part, in order |
| Strings.Lower | ragdocs_api/markdown_processor.py:196 | same length, each character lower-cased |
| Strings.ContainsMeansOccurs | ragdocs_api/markdown_processor.py:201 | `keyword in text` holds exactly when the keyword occurs at some index |
| Markdown.Truncate | ragdocs_api/markdown_processor.py:41-67 | text within the limit is unchanged; text over it with the ellipsis flag ends in "..." |
| Markdown.TruncateCut | ragdocs_api/markdown_processor.py:58-62 | without the ellipsis, the result is a prefix: the whole window, or the window up to its last space when that space is not first; the whole window is kept exactly when no space follows its first character |
| Markdown.TruncateWithEllipsis | ragdocs_api/markdown_processor.py:64-65 | with the ellipsis, the cut text is right-stripped and "..." is appended |
| Markdown.TruncateBound | ragdocs_api/markdown_processor.py:41-67 | the result is at most the limit, plus 3 with the ellipsis |
| Markdown.TruncateNotIdempotent | ragdocs_api/markdown_processor.py:41-67 | a truncated text can exceed the limit, and truncating it again changes it |
| Markdown.ExtractFrontmatter | ragdocs_api/markdown_processor.py:69-102 | the body changes only for text opening with "---\n" and then gets shorter; metadata is found only then |
| Markdown.FrontmatterFallback | ragdocs_api/markdown_processor.py:79-96 | no opening, no closing "\n---\n" or a YAML error gives no metadata and the text unchanged |
| Markdown.FrontmatterRoundTrip | ragdocs_api/markdown_processor.py:79-98 | "---\n" + yaml + "\n---\n" + body splits into the YAML's mapping and the stripped body |
| Markdown.PreprocessBounds | ragdocs_api/markdown_processor.py:208-226 | level kept; title and content kept within their limits; otherwise they end in "..." and are at most 3 over |
| Markdown.TitleCanExceedLimit | ragdocs_api/markdown_processor.py:223 | a 513-letter title without spaces comes out 515 characters long, over the 512 limit |
| CodeBlocks.WordRunMaximal | ragdocs_api/markdown_processor.py:120 | the language tag is the longest run of word characters after the backticks |
| CodeBlocks.FenceMatchAt | ragdocs_api/markdown_processor.py:119-121 | a match starts with the fence and ends inside the text, right after a closing "\n```" |
| CodeBlocks.FenceMatchShape | ragdocs_api/markdown_processor.py:119-121 | every match is a fenced block followed by the rest of the text: its tag is a non-empty word when present, and its code holds no "\n```" before the closing one |
| CodeBlocks.NoFenceUnchanged | ragdocs_api/markdown_processor.py:119-121 | text without "```" is left as it is |
| CodeBlocks.FenceReplaced | ragdocs_api/markdown_processor.py:115-121 | a fenced block after backtick-free text becomes `[CODE_BLOCK_<lang or code>: Code example]`, and the rest is processed in turn |
| CodeBlocks.PlaceholderPlain | ragdocs_api/markdown_processor.py:115-117 | a placeholder has no newline or backtick and is not indented |
| CodeBlocks.CleanCodeBlocks | ragdocs_api/markdown_processor.py:104-136 | the loop over lines computes the fence pass, the split, the collapse of indented runs and the join |
| CodeBlocks.CollapseLines | ragdocs_api/markdown_processor.py:123-136 | no output line is indented; each output line is an input line or the placeholder; no more lines than the input; none only for none |
| CodeBlocks.CollapseUnindented | ragdocs_api/markdown_processor.py:127-134 | lines without indentation pass through unchanged |
| CodeBlocks.CollapseIdempotent | ragdocs_api/markdown_processor.py:123-136 | collapsing twice is collapsing once |
| CodeBlocks.CollapseRun | ragdocs_api/markdown_processor.py:128-131 | a run of indented lines after an unindented line becomes one placeholder |
| CodeBlocks.CollapseKeepsPlain | ragdocs_api/markdown_processor.py:132-134 | the unindented lines are kept, all of them, in order |
| CodeBlocks.CleanedLines | ragdocs_api/markdown_processor.py:123-136 | the cleaned text splits back into the collapsed lines, none of them indented |
| Sections.HeadingAt | ragdocs_api/markdown_processor.py:148 | a match of `^(#{1,6})\s+(.+)$` at a line start ends inside the text |
| Sections.TitleOneLine | ragdocs_api/markdown_processor.py:148 | a heading's title holds no newline |
| Sections.HeadingsFrom | ragdocs_api/markdown_processor.py:148-153 | `finditer`: each heading found matches at its start; they come in order without overlapping |
| Sections.HeadingsFromComplete | ragdocs_api/markdown_processor.py:150-153 | any match at or after the scan start lies inside a heading found |
| Sections.HeadingsExact | ragdocs_api/markdown_processor.py:148-153 | the headings are exactly the non-overlapping matches, and every match lies within one |
| Sections.HeadingStartsWithHash | ragdocs_api/markdown_processor.py:148 | a heading starts with '#' |
| Sections.ExtractSections | ragdocs_api/markdown_processor.py:138-183 | the loop builds the sections of the specification function, one per heading |
| Sections.SectionsShape | ragdocs_api/markdown_processor.py:155-183 | no headings gives one "Main Content" section at level 0; otherwise one section per heading with its level (1 to 6) and its truncated title |
| Sections.SectionOfHeading | ragdocs_api/markdown_processor.py:167-181 | section i has heading i's level and truncated title, within 515 characters |
| Sections.SectionsCover | ragdocs_api/markdown_processor.py:166-172 | the raw sections tile the text from the first heading to the end, each starting with its heading |
| Sections.SectionIsPreprocessed | ragdocs_api/markdown_processor.py:171-173 | each section is `preprocess_section` of its stripped raw text, its title and its level |
| Categories.DetectCategory | ragdocs_api/markdown_processor.py:185-206 | the nested loops compute the category the specification function gives for the lower-cased text and title |
| Categories.MatchesGrow | ragdocs_api/markdown_processor.py:199-202 | visiting one more keyword adds one to the score exactly when it occurs |
| Categories.ScoredFirstMax | ragdocs_api/markdown_processor.py:204-205 | the scored items are empty exactly when no category scored; otherwise their first maximum is the winning category |
| Categories.FirstMaxIsFirstMaximum | ragdocs_api/markdown_processor.py:205 | the winner scores above zero, no lower than any category and strictly above every earlier one |
| Categories.DetectCategoryMeaning | ragdocs_api/markdown_processor.py:185-206 | "general" when no keyword occurs; otherwise the first category with the most distinct matching keywords |
| Categories.CategoryIsKnown | ragdocs_api/markdown_processor.py:204-206 | the result is "general" or a category name |
| Tracking.FileTracker.constructor | ragdocs_api/file_tracker.py:48-70 | the tracker starts from the cached metadata |
| Tracking.FileTracker.GetModifiedFiles | ragdocs_api/file_tracker.py:96-161 | the new and modified lists in walk order; the deleted files, each once; the metadata becomes the rescanned map |
| Tracking.FileTracker.CollectDeleted | ragdocs_api/file_tracker.py:150-154 | the deleted files are distinct and are exactly the cached files of the technology that were not walked |
| Tracking.PassCurrent | ragdocs_api/file_tracker.py:117-123 | `current_files` is the set of walked markdown paths |
| Tracking.PassKeys | ragdocs_api/file_tracker.py:117-147 | after the walk, the cache holds the old keys plus the walked markdown paths |
| Tracking.PassUntouched | ragdocs_api/file_tracker.py:117-147 | a cached file that was not walked keeps its metadata through the walk |
| Tracking.PassAbsorbed | ragdocs_api/file_tracker.py:129-147 | a walked markdown file ends with the metadata of the new-file or the changed-file rule |
| Tracking.PassLists | ragdocs_api/file_tracker.py:129-147 | the new and modified lists are the walk-order filters of the scan |
| Tracking.NewInOrderHas | ragdocs_api/file_tracker.py:129-130 | a path is new exactly when it was walked and was not cached |
| Tracking.ModifiedInOrderHas | ragdocs_api/file_tracker.py:139-144 | a path is modified exactly when it was walked, cached and its hash changed or its mtime grew |
| Tracking.RescannedAt | ragdocs_api/file_tracker.py:96-161 | each walked markdown file is in the new map with its absorbed metadata |
| Tracking.RescannedMeaning | ragdocs_api/file_tracker.py:96-161 | the new map's keys are the walked paths plus the other technologies' unwalked files; those keep their metadata |
| Tracking.KeyedByPathKept | ragdocs_api/file_tracker.py:131-137 | if every entry is keyed by its own path, that stays true after a rescan |
| Tracking.HashOrMtimeRule | ragdocs_api/file_tracker.py:129-147 | the new/modified test; the stored hash; the kept technology; the stored mtime is updated only on a change |
| Tracking.Partition | ragdocs_api/file_tracker.py:112-158 | new, modified and deleted are disjoint; new and modified files are walked markdown files; deleted is exactly the technology's unwalked cached files |
| Tracking.DeletionScoped | ragdocs_api/file_tracker.py:150-158 | an unwalked cached file is dropped exactly when it has the scanned technology, and otherwise kept as it was |
| Tracking.ProcessListDistinct | ragdocs_api/file_tracker.py:129-147 | new followed by modified lists every path at most once |
| Tracking.ScanOrder | ragdocs_api/file_tracker.py:117-147 | the lists come in the order of the walk |
| Tracking.Idempotent | ragdocs_api/file_tracker.py:96-161 | scanning the same files again reports no changes and leaves the map as it is |
| Indexing.ProcessMarkdownFile | ragdocs_api/rag_system.py:220-289 | fails exactly when the file cannot be read; otherwise gives the chunks of its sections |
| Indexing.ChunkFields | ragdocs_api/rag_system.py:247-280 | each chunk: path, hash, technology, level, re-truncated title and text within limits + 3, category from the table or "general", embedding of its text |
| Indexing.WithoutRecords | ragdocs_api/rag_system.py:325-331 | deleting by file path removes all records of the listed files and keeps the others in order |
| Indexing.AllChunksRecords | ragdocs_api/rag_system.py:333-338 | among the chunks of distinct files, one file's records are its own chunks or none |
| Indexing.ReindexedRecords | ragdocs_api/rag_system.py:325-355 | after removal and insertion, a file's records are its kept records followed by its fresh chunks |
| Indexing.ProcessFiles | ragdocs_api/rag_system.py:333-338 | succeeds exactly when every file can be read, giving the files' chunks in order |
| Indexing.RagSystem.constructor | ragdocs_api/rag_system.py:71-120 | the given collection, no available technology, the tracker, and a pipeline with the six-category table |
| Indexing.RagSystem.UpdateDocumentation | ragdocs_api/rag_system.py:291-368 | the tracker commits first; no change touches nothing; success iff all files read; success removes, appends and marks the technology; failure keeps the removals |
| Indexing.UpdatedRecords | ragdocs_api/rag_system.py:313-355 | after success: deleted files have no records, modified files exactly their fresh chunks, new files gain theirs, others are untouched |
| Search.BuildFilterExpression | ragdocs_api/rag_system.py:511-519 | no filter exactly when neither list is given and non-empty |
| Search.StrReprRead | ragdocs_api/rag_system.py:514 | the `repr` of a string reads back as the string, whatever follows |
| Search.ListReprRead | ragdocs_api/rag_system.py:513-517 | the `repr` of a list of strings reads back as the list, whatever follows |
| Search.FilterRoundTrip | ragdocs_api/rag_system.py:489-519 | the filter expression parses back to the technologies and categories it was built from |
| Search.NormalizedScoreRange | ragdocs_api/rag_system.py:462 | `1 - d²/4` lies in [0, 1] for d in [0, 2], is 1 at 0 and 0 at 2, and strictly falls |
| Search.GroupHits | ragdocs_api/rag_system.py:459-478 | the loop builds the grouping dict: keys in first-appearance order, each mapped to its results in order |
| Search.GroupingMeaning | ragdocs_api/rag_system.py:459-478 | the fold of appends is the dict whose keys are the technologies seen and whose groups are the filtered results |
| Search.KeysDistinct | ragdocs_api/rag_system.py:459 | each technology is a key once |
| Search.KeysAreTechnologies | ragdocs_api/rag_system.py:478 | the keys are exactly the technologies of the hits |
| Search.GroupSound | ragdocs_api/rag_system.py:478 | a group holds only results of its technology that were returned |
| Search.GroupComplete | ragdocs_api/rag_system.py:478 | every result lies in its technology's group |
| Search.GroupKeepsOrder | ragdocs_api/rag_system.py:460-478 | a group is the order-preserving filter of the results by technology |
| Search.GetCategories | ragdocs_api/rag_system.py:538-555 | the category names are the six of the table |
| Search.ChunkCategoryListed | ragdocs_api/rag_system.py:263-279 | every stored chunk's category is one `get_categories` lists, or "general" |
| Conversations.RoleRoundTrip | api/conversation_api.py:59-71 | the two allowed roles read back from their names, and only those names read as roles |
| Conversations.ConversationPathAsWritten | api/conversation_api.py:252-254 | refused exactly for blank ids and ids holding ".." |
| Conversations.AbsoluteIdAccepted | api/conversation_api.py:252-254 | any id starting with "/" and holding no "." is accepted and resolves to its own path plus ".json" |
| Conversations.AbsoluteIdEscapes | api/conversation_api.py:252-254 | the id "/tmp/x" is accepted and resolves to "/tmp/x.json", outside the directory |
| Conversations.ConversationPath | api/conversation_api.py:252-254 | refused for blank, ".." or absolute ids; otherwise `<dir>/<id>.json`, inside the directory |
| Conversations.PathFixScope | api/conversation_api.py:252-254 | the corrected path agrees with the original on every id not starting with '/' |
| Conversations.Preview | api/conversation_api.py:433-437 | the content up to 200 characters, or its first 200 and "..." |
| Conversations.ProcessSearchResults | api/conversation_api.py:404-442 | the nested loop computes the projection of the grouped results in dict order |
| Conversations.AppendGroup | api/conversation_api.py:421-442 | the inner loop extends the projection by one technology's results |
| Conversations.ProjectFails | api/conversation_api.py:427-439 | once a result's score fails validation, the whole projection fails |
| Conversations.ProjectMeaning | api/conversation_api.py:420-442 | success iff every score is in [0, 1]; then contexts and sources align with the results, with the context text and every source field |
| Conversations.EntriesOfGrouping | api/conversation_api.py:420-421 | each projected entry of a grouping dict has its key's technology and comes from the hits |
| Conversations.EntryInGroup | api/conversation_api.py:420-421 | each projected entry is a result of the group of its key |
| Conversations.RecentHistory | api/conversation_api.py:478-481 | `messages[-5:]`: the last five messages, or all, as a suffix |
| Conversations.CleanTitleBounds | api/conversation_api.py:658-668 | a cleaned title has at most 80 characters and no quotes; a short, stripped, quote-free reply is kept |
| Conversations.GenerateTitleBounds | api/conversation_api.py:658-674 | the title has at most 80 characters and no quotes, and is "New Chat" when the model failed |
| Conversations.TurnAppends | api/conversation_api.py:516-519 | a turn keeps the earlier messages and adds the user message, then the answer with its sources |
| Conversations.Conversation.constructor | api/conversation_api.py:74-90 | a conversation object holds the record it was built from |
| Conversations.Conversation.AddTurn | api/conversation_api.py:516-520 | the two messages are appended and the update time set; id, title and creation time stay |
| Conversations.ConversationManager.constructor | api/conversation_api.py:165-176 | the manager's directory and its stored files |
| Conversations.ConversationManager.LoadConversation | api/conversation_api.py:256-279 | an invalid id fails; a missing file gives nothing; otherwise the stored record |
| Conversations.ConversationManager.SaveConversation | api/conversation_api.py:281-293 | an invalid id fails and changes nothing; otherwise the record is stored under its path |
| Conversations.ConversationManager.CreateConversation | api/conversation_api.py:295-340 | the new record (given id, generated title, no messages, both times now) is saved, or creation fails without change |
| Conversations.ConversationManager.UpdateConversation | api/conversation_api.py:494-524 | the conversation gains the turn and is saved under its path when that path is valid |
| Conversations.ConversationManager.Respond | api/conversation_api.py:380-400 | search projection, chat answer and save: a failed projection or path changes nothing; otherwise the answer and the saved turn |
| Conversations.ConversationManager.ProcessMessage | api/conversation_api.py:342-402 | empty message refused; an id uses the stored conversation and fails unchanged when it is invalid or missing; without one a new conversation is saved first; the turn is as `Respond` gives |

## Left out

- File I/O, `os.walk`, `os.stat` and MD5 hashing are inputs: the scan is a sequence of entries whose paths are distinct, in walk order, and the file contents are a map. A file missing from the map is the read error.
- Milvus is a sequence of chunk records. The connection, collection creation, the index, flushing and loading are left out. So is the vector search itself: its hits are an input.
- The sentence encoder, the YAML loader, the LLM title model and the chat engine are function parameters or inputs.
- Logging, `print`, the HTTP layer, FastAPI and the exception-to-HTTP mapping are left out.
- `time.time()`, `utcnow()` and `uuid4()` are inputs. One clock value serves a whole call, whereas the source reads the clock once per file.
- The cache and conversation JSON files are maps. Corrupt JSON (which `load_conversation` reports as missing) and `Conversation(**data)` validation of a stored file are not modelled.
- Floats are reals: L2 distances, scores and embeddings. Rounding is left out.
- Strings.Lower: lower-cases ASCII only, because full Unicode case mapping has no counterpart here. For the same reason `\w` in the fence pattern is ASCII letters, digits and '_'.
- Search.StrReprRead: `repr` escaping is modelled for backslash, newline, carriage return, tab and the quotes; other non-printable characters are written as themselves.
- Tracking.FileTracker.GetModifiedFiles: the deleted list's order follows the dict's insertion order in the source; the model states it as a duplicate-free list of exactly those files, not their order.
- Conversations.ConversationManager.LoadConversation: uses the corrected Conversations.ConversationPath, so an absolute id, which the source accepts (api/conversation_api.py:252-254, 268-279), is refused here.
- Conversations.ConversationManager.SaveConversation: uses the corrected path as well, so an absolute id, which the source accepts and writes outside the directory (api/conversation_api.py:252-254, 291-293), is refused here.
- Conversations.ConversationManager.CreateConversation: saves through the corrected path, so a generated id that were absolute would be refused rather than written outside the directory.
- Conversations.ConversationManager.UpdateConversation: saves through the corrected path, so absolute ids are refused as in SaveConversation.
- Conversations.ConversationManager.ProcessMessage: loads and saves through the corrected path, so a conversation with an absolute id fails here, where the source would serve it.
- Indexing.RagSystem.constructor: the source constructor also connects to Milvus (ragdocs_api/rag_system.py:122) and runs `update_documentation` for milvus, qdrant and weaviate (ragdocs_api/rag_system.py:125-128). The model starts from a given collection; those three updates are Indexing.RagSystem.UpdateDocumentation calls made by the caller.
- Conversations.ConversationPath: pathlib's normalisation of the joined path is not modelled beyond the absolute-id case.
- Conversations.ParseRole: the Pydantic pattern `^(user|assistant)$` also accepts a trailing newline; the model accepts only the two names.
- Markdown.Truncate: its ensures states the cases; the exact cut is in Markdown.TruncateCut and the length bound in Markdown.TruncateBound. The +3 overflow of the 512/65535 limits is the source's behaviour and is kept (Markdown.TitleCanExceedLimit).
- Search.GroupHits: that the grouped results are a rearrangement of the hits is stated per result (Search.GroupSound, Search.GroupComplete, Search.GroupKeepsOrder), not as a multiset equality.
- `get_available_technologies`, `ensure_collection`, `connect_to_milvus`, the rest of `search` (encoding the query, the Milvus call, releasing the collection) and `_get_chat_response`'s prompt and index construction are not part of this model. `_get_chat_response` is modelled only through the five-message history and the joined context handed to the chat engine.

## Findings

| source | as written | input that shows it | evidently intended | confidence | as-written member | corrected member |
|---|---|---|---|---|---|---|
| api/conversation_api.py:252-254 | only blank ids and ids holding ".." are refused, then the id is joined to the directory with `/` | conversation id "/tmp/x": pathlib's join discards the directory and gives "/tmp/x.json" | every conversation file lies inside the conversations directory | not executed | Conversations.AbsoluteIdEscapes | Conversations.ConversationPath |
