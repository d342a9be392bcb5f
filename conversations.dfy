/**
 * The bookkeeping of `ConversationManager` (api/conversation_api.py): where a
 * conversation is stored, how grouped search results become the model's context and
 * the sources shown to the user, how a turn is appended, which messages the chat
 * engine sees, how a generated title is cleaned, and how `process_message` branches.
 * The conversation directory is a map from file path to stored record; ids, clocks,
 * the search hits, the title model and the chat engine are inputs.
 */
module Conversations {
  import opened Wrappers
  import opened Strings
  import opened Search

  // ---------------------------------------------------------------------------
  // Data

  /** `Message.role`, which the model restricts to "user" and "assistant". */
  datatype Role = User | Assistant

  function RoleName(r: Role): string {
    match r
      case User => "user"
      case Assistant => "assistant"
  }

  /** The role a stored role name stands for; any other name fails validation. */
  function ParseRole(s: string): Option<Role> {
    if s == "user" then Some(User) else if s == "assistant" then Some(Assistant) else None
  }

  lemma RoleRoundTrip(r: Role, s: string)
    ensures ParseRole(RoleName(r)) == Some(r)
    ensures ParseRole(s).Some? ==> RoleName(ParseRole(s).value) == s
  {
  }

  /** One source shown with an answer; its score must lie in [0, 1]. */
  datatype Source = Source(
    technology: string,
    filePath: string,
    sectionTitle: string,
    category: string,
    score: real,
    contentPreview: string,
    fullContent: string)

  predicate ValidScore(score: real) {
    0.0 <= score <= 1.0
  }

  datatype Message = Message(role: Role, content: string, sources: Option<seq<Source>>)

  /** A conversation as its JSON file holds it. */
  datatype Record = Record(title: string, id: string, messages: seq<Message>, createdAt: string, updatedAt: string)

  /** What `process_message` answers. */
  datatype ConversationResponse = ConversationResponse(conversationId: string, response: string, sources: seq<Source>)

  /** A message as the chat engine receives it. */
  datatype ChatMessage = ChatMessage(role: string, content: string)

  // ---------------------------------------------------------------------------
  // _get_conversation_path

  /** `Path(dir) / name`: a name that is an absolute path replaces the directory. */
  function JoinPath(dir: string, name: string): string {
    if |name| > 0 && name[0] == '/' then name else dir + "/" + name
  }

  /** `_get_conversation_path` as written: blank ids and ids holding ".." are refused. */
  function ConversationPathAsWritten(dir: string, id: string): (r: Result<string>)
    ensures r.Err? <==> Strip(id) == "" || Contains(id, "..")
  {
    if Strip(id) == "" || Contains(id, "..") then Err("Invalid conversation ID")
    else Ok(JoinPath(dir, id + ".json"))
  }

  /** The absolute id "/tmp/x" passes the check and names a file outside the conversation directory. */
  lemma AbsoluteIdEscapes()
    ensures ConversationPathAsWritten("conversations", "/tmp/x") == Ok("/tmp/x" + ".json")
    ensures !StartsWith("/tmp/x" + ".json", "conversations/")
  {
    var id := "/tmp/x";
    assert id[0] == '/' && '.' !in id;
    AbsoluteIdAccepted("conversations", id);
    assert (id + ".json")[0] != "conversations/"[0];
  }

  /** Any id that starts with '/' and has no '.' passes the check as written and keeps its own path. */
  lemma AbsoluteIdAccepted(dir: string, id: string)
    requires |id| > 0 && id[0] == '/' && '.' !in id
    ensures ConversationPathAsWritten(dir, id) == Ok(id + ".json")
  {
    assert !IsSpace(id[0]);
    StripKeepsInner(id, 0);
    AbsentNotContained(id, "..");
  }

  /** Text without the first character of `sub` does not contain `sub`. */
  lemma AbsentNotContained(s: string, sub: string)
    requires |sub| > 0 && sub[0] !in s
    ensures !Contains(s, sub)
  {
    ContainsMeansOccurs(s, sub);
    forall i ensures !OccursAt(s, sub, i) {
      if 0 <= i && i + |sub| <= |s| {
        assert s[i..i + |sub|][0] == s[i];
      }
    }
  }

  /** A non-space character keeps a stripped text non-empty. */
  lemma StripKeepsInner(s: string, i: nat)
    requires i < |s| && !IsSpace(s[i])
    ensures Strip(s) != ""
  {
    var r := RStrip(s);
    assert i < |r|;
    assert LeadingSpaces(r) <= i;
  }

  /** The path the model uses: absolute ids are refused as well, so every path lies in the directory. */
  function ConversationPath(dir: string, id: string): (r: Result<string>)
    ensures r.Err? <==> Strip(id) == "" || Contains(id, "..") || id[0] == '/'
    ensures r.Ok? ==> r.value == dir + "/" + id + ".json" && StartsWith(r.value, dir + "/")
  {
    if Strip(id) == "" || Contains(id, "..") then Err("Invalid conversation ID")
    else if id[0] == '/' then Err("Invalid conversation ID")
    else
      assert (id + ".json")[0] == id[0];
      Ok(JoinPath(dir, id + ".json"))
  }

  /** The two agree on every id except the absolute ones. */
  lemma PathFixScope(dir: string, id: string)
    requires |id| == 0 || id[0] != '/'
    ensures ConversationPath(dir, id) == ConversationPathAsWritten(dir, id)
  {
    if |id| == 0 {
      assert Strip(id) == "";
    } else {
      assert (id + ".json")[0] == id[0];
    }
  }

  // ---------------------------------------------------------------------------
  // _process_search_results

  /** `content_preview`: the content, or its first 200 characters and "..." when longer. */
  function Preview(content: string): (r: string)
    ensures |content| <= 200 ==> r == content
    ensures |content| > 200 ==> |r| == 203 && r[..200] == content[..200] && r[200..] == "..."
    ensures |r| <= 203
  {
    if |content| > 200 then content[..200] + "..." else content
  }

  function ContextLine(technology: string, r: SearchResult): string {
    "From " + technology + " documentation:\n" + r.content
  }

  function SourceOf(technology: string, r: SearchResult): Source {
    Source(technology, r.filePath, r.sectionTitle, r.category, r.score, Preview(r.content), r.content)
  }

  /** The results of one group, each tagged with the group's key. */
  function Tagged(technology: string, rs: seq<SearchResult>): seq<(string, SearchResult)> {
    seq(|rs|, i requires 0 <= i < |rs| => (technology, rs[i]))
  }

  /** Every result of the dict, group after group in key order, tagged with its key. */
  function Entries(keys: seq<string>, organized: map<string, seq<SearchResult>>): seq<(string, SearchResult)> {
    if |keys| == 0 then []
    else Entries(keys[..|keys| - 1], organized) + Tagged(keys[|keys| - 1], GroupAt(organized, keys[|keys| - 1]))
  }

  /** `organized[k]`, every key of the dict's order being in its map. */
  function GroupAt(organized: map<string, seq<SearchResult>>, k: string): seq<SearchResult> {
    if k in organized then organized[k] else []
  }

  /**
   * The context strings and sources of the tagged results, in order; building a source
   * whose score is outside [0, 1] fails validation.
   */
  function Project(es: seq<(string, SearchResult)>): Result<(seq<string>, seq<Source>)> {
    if |es| == 0 then Ok(([], []))
    else
      var e := es[|es| - 1];
      match Project(es[..|es| - 1])
        case Err(msg) => Err(msg)
        case Ok((context, sources)) =>
          if !ValidScore(e.1.score) then Err("score out of range")
          else Ok((context + [ContextLine(e.0, e.1)], sources + [SourceOf(e.0, e.1)]))
  }

  /**
   * The nested loop of `_process_search_results`: for each technology and each of its
   * results, a context string and a source, appended side by side.
   */
  method ProcessSearchResults(keys: seq<string>, organized: map<string, seq<SearchResult>>)
    returns (r: Result<(seq<string>, seq<Source>)>)
    requires forall k :: k in keys ==> k in organized
    ensures r == Project(Entries(keys, organized))
  {
    var context: seq<string> := [];
    var sources: seq<Source> := [];
    for i := 0 to |keys|
      invariant Project(Entries(keys[..i], organized)) == Ok((context, sources))
    {
      var tech := keys[i];
      var results := organized[tech];
      ghost var done := Entries(keys[..i], organized);
      var step := AppendGroup(tech, results, context, sources, done);
      EntriesStep(keys, organized, i);
      if step.Err? {
        EntriesPrefix(keys, organized, i + 1);
        ProjectFails(Entries(keys[..i + 1], organized), Entries(keys, organized));
        ProjectErrText(done + Tagged(tech, results));
        return step;
      }
      context, sources := step.value.0, step.value.1;
    }
    assert keys[..|keys|] == keys;
    r := Ok((context, sources));
  }

  /** The inner loop over one technology's results. */
  method AppendGroup(tech: string, results: seq<SearchResult>, context0: seq<string>, sources0: seq<Source>,
                     ghost done: seq<(string, SearchResult)>)
    returns (r: Result<(seq<string>, seq<Source>)>)
    requires Project(done) == Ok((context0, sources0))
    ensures r == Project(done + Tagged(tech, results))
  {
    var context, sources := context0, sources0;
    assert done + Tagged(tech, results[..0]) == done;
    for j := 0 to |results|
      invariant Project(done + Tagged(tech, results[..j])) == Ok((context, sources))
    {
      var result := results[j];
      TaggedStep(tech, results, j);
      ProjectStep(done + Tagged(tech, results[..j]), (tech, result));
      assert done + Tagged(tech, results[..j + 1]) == done + Tagged(tech, results[..j]) + [(tech, result)];
      if !ValidScore(result.score) {
        ProjectFails(done + Tagged(tech, results[..j + 1]), done + Tagged(tech, results));
        TaggedPrefix(done, tech, results, j + 1);
        return Err("score out of range");
      }
      context := context + [ContextLine(tech, result)];
      sources := sources + [SourceOf(tech, result)];
    }
    assert results[..|results|] == results;
    r := Ok((context, sources));
  }

  lemma TaggedStep(tech: string, rs: seq<SearchResult>, j: nat)
    requires j < |rs|
    ensures Tagged(tech, rs[..j + 1]) == Tagged(tech, rs[..j]) + [(tech, rs[j])]
  {
  }

  lemma ProjectStep(es: seq<(string, SearchResult)>, e: (string, SearchResult))
    ensures Project(es + [e]) == match Project(es)
      case Err(msg) => Err(msg)
      case Ok((context, sources)) =>
        if !ValidScore(e.1.score) then Err("score out of range")
        else Ok((context + [ContextLine(e.0, e.1)], sources + [SourceOf(e.0, e.1)]))
  {
    assert (es + [e])[..|es|] == es;
  }

  lemma EntriesStep(keys: seq<string>, organized: map<string, seq<SearchResult>>, i: nat)
    requires i < |keys|
    ensures Entries(keys[..i + 1], organized) == Entries(keys[..i], organized) + Tagged(keys[i], GroupAt(organized, keys[i]))
  {
    assert keys[..i + 1][..i] == keys[..i];
  }

  /** The entries of the first keys are a prefix of all entries. */
  lemma {:induction false} EntriesPrefix(keys: seq<string>, organized: map<string, seq<SearchResult>>, n: nat)
    requires n <= |keys|
    ensures Entries(keys[..n], organized) <= Entries(keys, organized)
    decreases |keys| - n
  {
    if n < |keys| {
      EntriesPrefix(keys, organized, n + 1);
      EntriesStep(keys, organized, n);
    } else {
      assert keys[..n] == keys;
    }
  }

  lemma TaggedPrefix(done: seq<(string, SearchResult)>, tech: string, rs: seq<SearchResult>, n: nat)
    requires n <= |rs|
    ensures done + Tagged(tech, rs[..n]) <= done + Tagged(tech, rs)
  {
    assert Tagged(tech, rs[..n]) == Tagged(tech, rs)[..n];
  }

  /** Once a prefix fails validation, so does everything it starts. */
  lemma {:induction false} ProjectFails(a: seq<(string, SearchResult)>, b: seq<(string, SearchResult)>)
    requires a <= b && Project(a).Err?
    ensures Project(b) == Err("score out of range")
    decreases |b|
  {
    ProjectErrText(a);
    if |b| > |a| {
      assert a <= b[..|b| - 1];
      ProjectFails(a, b[..|b| - 1]);
    } else {
      assert a == b;
    }
  }

  lemma {:induction false} ProjectErrText(es: seq<(string, SearchResult)>)
    ensures Project(es).Err? ==> Project(es) == Err("score out of range")
  {
    if |es| > 0 {
      ProjectErrText(es[..|es| - 1]);
    }
  }

  /**
   * Projection succeeds exactly when every score is in [0, 1]; then the context strings
   * and the sources are aligned with the entries, one each, in order, each context
   * reading "From <technology> documentation:\n<content>" and each source carrying the
   * group's technology, the stored fields, the preview and the whole content.
   */
  lemma {:induction false} ProjectMeaning(es: seq<(string, SearchResult)>)
    ensures Project(es).Ok? <==> forall k :: 0 <= k < |es| ==> ValidScore(es[k].1.score)
    ensures Project(es).Ok? ==>
      var (context, sources) := Project(es).value;
      && |context| == |es| && |sources| == |es|
      && forall k :: 0 <= k < |es| ==>
           && context[k] == "From " + es[k].0 + " documentation:\n" + es[k].1.content
           && sources[k].technology == es[k].0
           && sources[k].filePath == es[k].1.filePath
           && sources[k].sectionTitle == es[k].1.sectionTitle
           && sources[k].category == es[k].1.category
           && sources[k].score == es[k].1.score
           && sources[k].contentPreview == Preview(es[k].1.content)
           && sources[k].fullContent == es[k].1.content
  {
    if |es| > 0 {
      var init := es[..|es| - 1];
      ProjectMeaning(init);
      if Project(init).Err? {
        var k :| 0 <= k < |init| && !ValidScore(init[k].1.score);
        assert es[k] == init[k];
      } else {
        forall k | 0 <= k < |init| ensures es[k] == init[k] {
        }
      }
    }
  }

  /** Each entry of a dict built by the grouping loop has the technology of its key, and holds a result of that group. */
  lemma {:induction false} EntriesOfGrouping(keys: seq<string>, organized: map<string, seq<SearchResult>>,
                                             rs: seq<SearchResult>, k: nat)
    requires Organizes(keys, organized, rs)
    requires k < |Entries(keys, organized)|
    ensures var e := Entries(keys, organized)[k];
      e.0 in keys && e.1.technology == e.0 && e.1 in rs
  {
    EntryInGroup(keys, organized, k);
    var e := Entries(keys, organized)[k];
    GroupSound(rs, e.0, e.1);
  }

  lemma {:induction false} EntryInGroup(keys: seq<string>, organized: map<string, seq<SearchResult>>, k: nat)
    requires k < |Entries(keys, organized)|
    ensures var e := Entries(keys, organized)[k];
      e.0 in keys && e.1 in GroupAt(organized, e.0)
  {
    var init := keys[..|keys| - 1];
    var last := keys[|keys| - 1];
    var head := Entries(init, organized);
    if k < |head| {
      EntryInGroup(init, organized, k);
    } else {
      assert Entries(keys, organized)[k] == (last, GroupAt(organized, last)[k - |head|]);
    }
  }

  // ---------------------------------------------------------------------------
  // _get_chat_response and generate_title

  /** `conversation.messages[-5:]`: the last five messages, or all when there are fewer. */
  function RecentHistory(messages: seq<Message>): (r: seq<Message>)
    ensures |r| == if |messages| < 5 then |messages| else 5
    ensures messages == messages[..|messages| - |r|] + r
  {
    if |messages| <= 5 then messages else messages[|messages| - 5..]
  }

  /** The history handed to the chat engine: role and text of each recent message. */
  function ChatHistory(messages: seq<Message>): seq<ChatMessage> {
    var recent := RecentHistory(messages);
    seq(|recent|, i requires 0 <= i < |recent| => ChatMessage(RoleName(recent[i].role), recent[i].content))
  }

  /** `"\n\n".join(context)`. */
  function JoinParagraphs(xs: seq<string>): string {
    if |xs| == 0 then "" else if |xs| == 1 then xs[0] else xs[0] + "\n\n" + JoinParagraphs(xs[1..])
  }

  /** The cleaning of a generated title: strip, cut to 77 characters and "..." past 80, drop both quotes. */
  function CleanTitle(raw: string): string {
    var stripped := Strip(raw);
    var cut := if |stripped| > 80 then stripped[..77] + "..." else stripped;
    RemoveChar(RemoveChar(cut, '"'), '\'')
  }

  /** The title `generate_title` answers: the cleaned reply, or "New Chat" when the model failed. */
  function GenerateTitle(reply: Option<string>): string {
    match reply
      case None => "New Chat"
      case Some(raw) => CleanTitle(raw)
  }

  /**
   * A cleaned title has at most 80 characters and no quote of either kind; a reply that
   * is already short, stripped and free of quotes is kept as it is.
   */
  lemma CleanTitleBounds(raw: string)
    ensures |CleanTitle(raw)| <= 80
    ensures '"' !in CleanTitle(raw) && '\'' !in CleanTitle(raw)
    ensures |Strip(raw)| <= 80 && '"' !in Strip(raw) && '\'' !in Strip(raw) ==> CleanTitle(raw) == Strip(raw)
  {
    var stripped := Strip(raw);
    var cut := if |stripped| > 80 then stripped[..77] + "..." else stripped;
    RemoveKeepsAbsent(RemoveChar(cut, '"'), '\'', '"');
  }

  /** Removing one character keeps another one absent. */
  lemma {:induction false} RemoveKeepsAbsent(s: string, c: char, d: char)
    requires d !in s
    ensures d !in RemoveChar(s, c)
  {
    if |s| > 0 {
      RemoveKeepsAbsent(s[1..], c, d);
      assert d != s[0];
    }
  }

  lemma GenerateTitleBounds(reply: Option<string>)
    ensures |GenerateTitle(reply)| <= 80
    ensures '"' !in GenerateTitle(reply) && '\'' !in GenerateTitle(reply)
    ensures reply.None? ==> GenerateTitle(reply) == "New Chat"
  {
    if reply.Some? {
      CleanTitleBounds(reply.value);
    }
  }

  // ---------------------------------------------------------------------------
  // Conversations and the manager

  class Conversation {
    var title: string
    var id: string
    var messages: seq<Message>
    var createdAt: string
    var updatedAt: string

    /** A conversation read from, or about to be written to, its file. */
    constructor(r: Record)
      ensures Snapshot() == r
    {
      title := r.title;
      id := r.id;
      messages := r.messages;
      createdAt := r.createdAt;
      updatedAt := r.updatedAt;
    }

    function Snapshot(): Record
      reads this
    {
      Record(title, id, messages, createdAt, updatedAt)
    }

    /** The in-memory half of `_update_conversation`: the user's message, then the answer with its sources, and the new time. */
    method AddTurn(message: string, response: string, sources: seq<Source>, now: string)
      modifies this
      ensures messages == old(messages) + [Message(User, message, Some([])), Message(Assistant, response, Some(sources))]
      ensures updatedAt == now
      ensures title == old(title) && id == old(id) && createdAt == old(createdAt)
    {
      messages := messages + [Message(User, message, Some([]))];
      messages := messages + [Message(Assistant, response, Some(sources))];
      updatedAt := now;
    }
  }

  /** The record a turn leaves behind: two more messages and the new time. */
  function WithTurn(r: Record, message: string, response: string, sources: seq<Source>, now: string): Record {
    r.(messages := r.messages + [Message(User, message, Some([])), Message(Assistant, response, Some(sources))],
       updatedAt := now)
  }

  /** A turn keeps every earlier message in place and adds exactly a user message and an assistant message. */
  lemma TurnAppends(r: Record, message: string, response: string, sources: seq<Source>, now: string)
    ensures var t := WithTurn(r, message, response, sources, now);
      && |t.messages| == |r.messages| + 2
      && t.messages[..|r.messages|] == r.messages
      && t.messages[|r.messages|] == Message(User, message, Some([]))
      && t.messages[|r.messages| + 1] == Message(Assistant, response, Some(sources))
      && t.id == r.id && t.title == r.title && t.createdAt == r.createdAt
  {
  }

  /** A new conversation's record: the given id, the generated title, no messages. */
  function NewRecord(id: string, titleReply: Option<string>, now: string): Record {
    Record(GenerateTitle(titleReply), id, [], now, now)
  }

  class ConversationManager {
    const conversationsDir: string
    var files: map<string, Record>

    constructor(dir: string, stored: map<string, Record>)
      ensures conversationsDir == dir && files == stored
    {
      conversationsDir := dir;
      files := stored;
    }

    /** `load_conversation`: an invalid id fails; a missing file gives nothing; otherwise the stored conversation. */
    method LoadConversation(id: string) returns (r: Result<Option<Conversation>>)
      ensures ConversationPath(conversationsDir, id).Err? ==> r.Err?
      ensures ConversationPath(conversationsDir, id).Ok? ==>
        var path := ConversationPath(conversationsDir, id).value;
        && r.Ok?
        && (path !in files <==> r.value.None?)
        && (path in files ==> fresh(r.value.value) && r.value.value.Snapshot() == files[path])
    {
      var path := ConversationPath(conversationsDir, id);
      if path.Err? {
        return Err(path.error);
      }
      if path.value !in files {
        return Ok(None);
      }
      var c := new Conversation(files[path.value]);
      return Ok(Some(c));
    }

    /** `save_conversation`: the record is written under the path of its id. */
    method SaveConversation(c: Conversation) returns (outcome: Outcome)
      modifies this
      ensures ConversationPath(conversationsDir, c.id).Err? ==> outcome.Fail? && files == old(files)
      ensures ConversationPath(conversationsDir, c.id).Ok? ==>
        outcome == Pass && files == old(files)[ConversationPath(conversationsDir, c.id).value := c.Snapshot()]
    {
      var path := ConversationPath(conversationsDir, c.id);
      if path.Err? {
        return Fail(path.error);
      }
      files := files[path.value := c.Snapshot()];
      return Pass;
    }

    /** `create_conversation`: a new conversation with a generated title, saved at once. */
    method CreateConversation(newId: string, now: string, titleReply: Option<string>) returns (r: Result<Conversation>)
      modifies this
      ensures ConversationPath(conversationsDir, newId).Err? ==> r.Err? && files == old(files)
      ensures ConversationPath(conversationsDir, newId).Ok? ==>
        && r.Ok? && fresh(r.value)
        && r.value.Snapshot() == NewRecord(newId, titleReply, now)
        && files == old(files)[ConversationPath(conversationsDir, newId).value := NewRecord(newId, titleReply, now)]
    {
      var c := new Conversation(NewRecord(newId, titleReply, now));
      var saved := SaveConversation(c);
      if saved.Fail? {
        return Err("Failed to create conversation: " + saved.error);
      }
      return Ok(c);
    }

    /** `_update_conversation`: append the turn and save the conversation. */
    method UpdateConversation(c: Conversation, message: string, response: string, sources: seq<Source>, now: string)
      returns (outcome: Outcome)
      modifies this, c
      ensures c.Snapshot() == WithTurn(old(c.Snapshot()), message, response, sources, now)
      ensures ConversationPath(conversationsDir, c.id).Ok? ==>
        outcome == Pass && files == old(files)[ConversationPath(conversationsDir, c.id).value := c.Snapshot()]
      ensures ConversationPath(conversationsDir, c.id).Err? ==> outcome.Fail? && files == old(files)
    {
      c.AddTurn(message, response, sources, now);
      outcome := SaveConversation(c);
    }

    /**
     * The rest of `process_message` once the conversation is at hand: group the hits,
     * project them, ask the chat engine, append the turn and save it.
     */
    method Respond(c: Conversation, message: string, hits: seq<seq<Hit>>, now: string,
                   engine: (seq<ChatMessage>, string, string) -> string)
      returns (r: Result<ConversationResponse>)
      modifies this, c
      ensures Turned(conversationsDir, r, old(files), old(c.Snapshot()), message, hits, now, engine, files)
    {
      var keys, organized := GroupHits(hits);
      var projected := ProcessSearchResults(keys, organized);
      if projected.Err? {
        return Err(projected.error);
      }
      var (context, sources) := projected.value;
      var response := engine(ChatHistory(c.messages), message, JoinParagraphs(context));
      var saved := UpdateConversation(c, message, response, sources, now);
      if saved.Fail? {
        return Err(saved.error);
      }
      return Ok(ConversationResponse(c.id, response, sources));
    }

    /**
     * `process_message`. An empty message is refused. A request with an id works on
     * the stored conversation, and fails, changing nothing, when the id is invalid or no
     * file holds it; a request without one creates and saves a new conversation first,
     * which stays saved even when the turn then fails. The turn fails when a source's
     * score is outside [0, 1]; otherwise the answer and the sources are those `Answer`
     * gives, and the conversation's file gains the turn.
     */
    method ProcessMessage(message: string, conversationId: Option<string>, hits: seq<seq<Hit>>,
                          newId: string, now: string, titleReply: Option<string>,
                          engine: (seq<ChatMessage>, string, string) -> string)
      returns (r: Result<ConversationResponse>)
      modifies this
      ensures message == "" ==> r.Err? && files == old(files)
      ensures message != "" && HasId(conversationId) ==>
        var path := ConversationPath(conversationsDir, conversationId.value);
        && (path.Err? || path.value !in old(files) ==> r.Err? && files == old(files))
        && (path.Ok? && path.value in old(files) ==>
              Turned(conversationsDir, r, old(files), old(files)[path.value], message, hits, now, engine, files))
      ensures message != "" && !HasId(conversationId) ==>
        var path := ConversationPath(conversationsDir, newId);
        && (path.Err? ==> r.Err? && files == old(files))
        && (path.Ok? ==>
              var created := NewRecord(newId, titleReply, now);
              Turned(conversationsDir, r, old(files)[path.value := created], created, message, hits, now, engine, files))
    {
      if message == "" {
        return Err("message must not be empty");
      }
      var conversation: Conversation;
      if HasId(conversationId) {
        var loaded := LoadConversation(conversationId.value);
        if loaded.Err? {
          return Err(loaded.error);
        }
        if loaded.value.None? {
          return Err("no conversation " + conversationId.value);
        }
        conversation := loaded.value.value;
      } else {
        var created := CreateConversation(newId, now, titleReply);
        if created.Err? {
          return Err(created.error);
        }
        conversation := created.value;
      }
      r := Respond(conversation, message, hits, now, engine);
    }
  }

  /** A request names a conversation when its id is given and not empty. */
  predicate HasId(conversationId: Option<string>) {
    conversationId.Some? && conversationId.value != ""
  }

  /**
   * What the turn produces for a conversation whose record is `base`: the sources of the
   * grouped hits and the chat engine's reply to the message given the last five
   * messages and the joined context; an out-of-range score fails it.
   */
  function Answer(base: Record, message: string, hits: seq<seq<Hit>>,
                  engine: (seq<ChatMessage>, string, string) -> string): Result<(string, seq<Source>)>
  {
    var grouped := Grouping(Flatten(hits));
    match Project(Entries(grouped.0, grouped.1))
      case Err(msg) => Err(msg)
      case Ok((context, sources)) => Ok((engine(ChatHistory(base.messages), message, JoinParagraphs(context)), sources))
  }

  /**
   * The outcome of a turn on the record `base` when the conversations directory is
   * `dir` and the files are `before`: it fails, leaving the files as they were, when
   * `Answer` fails or the record's id has no valid path; otherwise it answers for the
   * record's id with `Answer`'s reply and sources and stores the record with the turn
   * appended under that path.
   */
  ghost predicate Turned(dir: string, r: Result<ConversationResponse>, before: map<string, Record>, base: Record,
                         message: string, hits: seq<seq<Hit>>, now: string,
                         engine: (seq<ChatMessage>, string, string) -> string, after: map<string, Record>)
  {
    var answer := Answer(base, message, hits, engine);
    var path := ConversationPath(dir, base.id);
    && (answer.Err? || path.Err? ==> r.Err? && after == before)
    && (answer.Ok? && path.Ok? ==>
          && r == Ok(ConversationResponse(base.id, answer.value.0, answer.value.1))
          && after == before[path.value := WithTurn(base, message, answer.value.0, answer.value.1, now)])
  }
}
