/**
 * The chat panel of src/ReactAiStudio/components/ChatComponent/index.tsx:
 * the list of context files, the prompt built from them, and the reading
 * of the streamed reply into the chat store.
 *
 * The transport is a parameter: `chunks` are the decoded chunks the reader
 * delivered before the stream ended, failed or was aborted, and `parse`
 * stands for `JSON.parse(payload).content` followed by the string
 * conversion `+=` applies (`None` where that throws).
 */
module ChatComponent {
  import opened Wrappers
  import opened Strings
  import opened FileCollection
  import opened ChatStore

  /** `!text.trim()`: nothing but white space. */
  predicate IsBlank(text: string)
  {
    Trim(text) == ""
  }

  /** Three backticks, which open and close a fenced block. */
  const Fence: string := "```"

  /** A text between two fences, the opening one followed by the language. */
  function Fenced(language: string, value: string): string
  {
    Fence + language + ("\n" + value + "\n") + Fence
  }

  /**
   * One file of the context: `File: <name>`, then the file fenced with its
   * language. A name missing from the collection reads `undefined` for
   * both language and text, as optional chaining inside a template does.
   */
  function ContextBlock(fs: Files, name: string): string
  {
    var f := Lookup(fs, name);
    var language := if f.Some? then f.value.language else "undefined";
    var value := if f.Some? then f.value.value else "undefined";
    "File: " + name + "\n" + Fenced(language, value)
  }

  /** The block of a file in the collection holds its text between two line breaks. */
  lemma ContextBlockHoldsFile(fs: Files, name: string)
    requires name in fs.entries
    ensures StartsWith(ContextBlock(fs, name), "File: " + name + "\n")
    ensures Contains(ContextBlock(fs, name), "\n" + fs.entries[name].value + "\n")
  {
    var f := fs.entries[name];
    assert Lookup(fs, name) == Some(f);
    var head := "File: " + name + "\n";
    var mid := "\n" + f.value + "\n";
    var body := Fenced(f.language, f.value);
    assert ContextBlock(fs, name) == head + body;
    ContainsInfix(Fence + f.language, mid, Fence);
    ContainsAfter(head, body, mid);
    assert (head + body)[..|head|] == head;
  }

  /** `contextFiles.map(...)`: one block per listed name, in list order. */
  function Blocks(fs: Files, names: seq<string>): (blocks: seq<string>)
    ensures |blocks| == |names|
    ensures forall i :: 0 <= i < |names| ==> blocks[i] == ContextBlock(fs, names[i])
  {
    seq(|names|, i requires 0 <= i < |names| => ContextBlock(fs, names[i]))
  }

  /** `contextFiles.map(...).join('\n\n')` */
  function ContextContent(fs: Files, names: seq<string>): string
  {
    JoinWith(Blocks(fs, names), "\n\n")
  }

  /**
   * The message sent: the text alone without context files, and otherwise
   * the context blocks under `Context Files:` followed by the question.
   */
  function FinalPrompt(fs: Files, names: seq<string>, text: string): (prompt: string)
    ensures EndsWith(prompt, text)
    ensures |names| == 0 ==> prompt == text
    ensures |names| > 0 ==> |prompt| > |text|
  {
    if |names| > 0 then
      var p := "Context Files:\n" + ContextContent(fs, names) + "\n\nUser Question: " + text;
      assert p[|p| - |text|..] == text;
      p
    else text
  }

  /** With context files, the prompt opens with the header and holds every file's block. */
  lemma FinalPromptHoldsContext(fs: Files, names: seq<string>, text: string, k: nat)
    requires k < |names|
    ensures StartsWith(FinalPrompt(fs, names, text), "Context Files:\n")
    ensures Contains(FinalPrompt(fs, names, text), ContextBlock(fs, names[k]))
  {
    var blocks := Blocks(fs, names);
    var content := JoinWith(blocks, "\n\n");
    JoinWithContains(blocks, "\n\n", k);
    ContainsIn("Context Files:\n", content, "\n\nUser Question: " + text, blocks[k]);
    var p := FinalPrompt(fs, names, text);
    assert p == "Context Files:\n" + content + ("\n\nUser Question: " + text);
    assert p[..15] == "Context Files:\n";
  }

  /**
   * With context files, the prompt is laid out as the template writes it:
   * the header, the blocks in the order of the list separated by blank
   * lines, then a blank line and the labelled question. The first file's
   * block directly follows the header.
   */
  lemma FinalPromptLayout(fs: Files, names: seq<string>, text: string)
    requires |names| > 0
    ensures FinalPrompt(fs, names, text)
      == "Context Files:\n" + JoinWith(Blocks(fs, names), "\n\n") + "\n\nUser Question: " + text
    ensures EndsWith(FinalPrompt(fs, names, text), "\n\nUser Question: " + text)
    ensures StartsWith(FinalPrompt(fs, names, text), "Context Files:\n" + ContextBlock(fs, names[0]))
  {
    var blocks := Blocks(fs, names);
    var head := "Context Files:\n";
    var tail := "\n\nUser Question: " + text;
    var content := JoinWith(blocks, "\n\n");
    var p := FinalPrompt(fs, names, text);
    assert p == head + content + tail;
    assert p[|p| - |tail|..] == tail;
    var first := blocks[0];
    assert first == ContextBlock(fs, names[0]);
    if |blocks| == 1 {
      assert content == first;
    } else {
      assert content == first + "\n\n" + JoinWith(blocks[1..], "\n\n");
    }
    assert content[..|first|] == first;
    assert p[..|head + first|] == head + first;
  }

  /** The payload of a line starting with `data: `: the rest of the line, trimmed. */
  function Payload(line: string): Option<string>
  {
    if StartsWith(line, "data: ") then Some(Trim(line[6..])) else None
  }

  /** What one line of a chunk does to the reading of that chunk. */
  datatype LineEffect = Ignore | Stop | Append(content: string)

  /**
   * A data line whose payload is `[DONE]` stops the chunk; one whose
   * payload parses appends its content; any other line is ignored.
   */
  function Effect(line: string, parse: string -> Option<string>): LineEffect
  {
    match Payload(line)
    case None => Ignore
    case Some(payload) =>
      if payload == "[DONE]" then Stop
      else
        match parse(payload)
        case None => Ignore
        case Some(content) => Append(content)
  }

  /** The effect of each line, in order. */
  function Effects(lines: seq<string>, parse: string -> Option<string>): (effects: seq<LineEffect>)
    ensures |effects| == |lines|
    ensures forall i {:trigger Effect(lines[i], parse)} :: 0 <= i < |lines| ==> effects[i] == Effect(lines[i], parse)
    decreases |lines|
  {
    if |lines| == 0 then [] else [Effect(lines[0], parse)] + Effects(lines[1..], parse)
  }

  /** The contents appended for a run of effects: up to the first `Stop`, in order. */
  function Deltas(effects: seq<LineEffect>): seq<string>
    decreases |effects|
  {
    if |effects| == 0 then []
    else
      match effects[0]
      case Ignore => Deltas(effects[1..])
      case Stop => []
      case Append(content) => [content] + Deltas(effects[1..])
  }

  /**
   * The contents one chunk contributes, in order: each data line's parsed
   * content until a `[DONE]` payload, which ends the chunk; other lines and
   * payloads that do not parse are skipped.
   */
  function ChunkDeltas(lines: seq<string>, parse: string -> Option<string>): seq<string>
  {
    Deltas(Effects(lines, parse))
  }

  /** The contents of the whole stream: every chunk's, each chunk split at `\n`. */
  function StreamDeltas(chunks: seq<string>, parse: string -> Option<string>): seq<string>
    decreases |chunks|
  {
    if |chunks| == 0 then []
    else StreamDeltas(chunks[..|chunks| - 1], parse) + ChunkDeltas(SplitOn(chunks[|chunks| - 1], '\n'), parse)
  }

  /** The parts one after the other. */
  function Concat(parts: seq<string>): string
    decreases |parts|
  {
    if |parts| == 0 then "" else Concat(parts[..|parts| - 1]) + parts[|parts| - 1]
  }

  lemma {:induction false} ConcatAppend(a: seq<string>, b: seq<string>)
    ensures Concat(a + b) == Concat(a) + Concat(b)
    decreases |b|
  {
    if |b| > 0 {
      assert (a + b)[..|a + b| - 1] == a + b[..|b| - 1];
      ConcatAppend(a, b[..|b| - 1]);
    } else {
      assert a + b == a;
    }
  }

  lemma AppendOne(parts: seq<string>, x: string)
    ensures Concat(parts + [x]) == Concat(parts) + x
  {
    assert (parts + [x])[..|parts|] == parts;
  }

  /** A `[DONE]` ends only its own chunk: the stream's contents are those of each chunk in turn. */
  lemma {:induction false} StreamDeltasAppend(a: seq<string>, b: seq<string>, parse: string -> Option<string>)
    ensures StreamDeltas(a + b, parse) == StreamDeltas(a, parse) + StreamDeltas(b, parse)
    decreases |b|
  {
    if |b| > 0 {
      assert (a + b)[..|a + b| - 1] == a + b[..|b| - 1];
      assert (a + b)[|a + b| - 1] == b[|b| - 1];
      StreamDeltasAppend(a, b[..|b| - 1], parse);
    } else {
      assert a + b == a;
    }
  }

  /** Nothing after a `Stop` counts. */
  lemma {:induction false} StopEndsDeltas(effects: seq<LineEffect>, i: nat)
    requires i < |effects| && effects[i] == Stop
    ensures Deltas(effects) == Deltas(effects[..i])
    decreases i
  {
    if i > 0 {
      assert effects[1..][..i - 1] == effects[..i][1..];
      StopEndsDeltas(effects[1..], i - 1);
    }
  }

  /** The contents from index `j` on, by the effect at `j`. */
  lemma DeltasFrom(effects: seq<LineEffect>, j: nat)
    requires j < |effects|
    ensures effects[j] == Ignore ==> Deltas(effects[j..]) == Deltas(effects[j + 1..])
    ensures effects[j] == Stop ==> Deltas(effects[j..]) == []
    ensures effects[j].Append? ==> Deltas(effects[j..]) == [effects[j].content] + Deltas(effects[j + 1..])
  {
    assert effects[j..][0] == effects[j];
    assert effects[j..][1..] == effects[j + 1..];
  }

  /** Nothing after a `[DONE]` line counts, within its chunk. */
  lemma DoneEndsChunk(lines: seq<string>, i: nat, parse: string -> Option<string>)
    requires i < |lines| && Payload(lines[i]) == Some("[DONE]")
    ensures ChunkDeltas(lines, parse) == ChunkDeltas(lines[..i], parse)
  {
    var e := Effects(lines, parse);
    assert e[i] == Effect(lines[i], parse) == Stop;
    StopEndsDeltas(e, i);
    var p := Effects(lines[..i], parse);
    forall k | 0 <= k < i
      ensures p[k] == e[k]
    {
      assert p[k] == Effect(lines[..i][k], parse) && e[k] == Effect(lines[k], parse);
    }
    assert p == e[..i];
  }

  /** An ignored effect adds nothing. */
  lemma {:induction false} IgnoreAddsNothing(x: seq<LineEffect>, y: seq<LineEffect>)
    ensures Deltas(x + [Ignore] + y) == Deltas(x + y)
    decreases |x|
  {
    if |x| > 0 {
      assert (x + [Ignore] + y)[1..] == x[1..] + [Ignore] + y;
      assert (x + y)[1..] == x[1..] + y;
      IgnoreAddsNothing(x[1..], y);
    } else {
      assert x + [Ignore] + y == [Ignore] + y;
      assert x + y == y;
    }
  }

  /** A line that is not a data line, or whose payload does not parse, contributes nothing. */
  lemma SkippedLineIgnored(a: seq<string>, line: string, b: seq<string>, parse: string -> Option<string>)
    requires Effect(line, parse) == Ignore
    ensures ChunkDeltas(a + [line] + b, parse) == ChunkDeltas(a + b, parse)
  {
    var ea, eb := Effects(a, parse), Effects(b, parse);
    IgnoreAddsNothing(ea, eb);
    var s1, e1 := a + [line] + b, Effects(a + [line] + b, parse);
    forall k | 0 <= k < |s1|
      ensures e1[k] == (ea + [Ignore] + eb)[k]
    {
      assert e1[k] == Effect(s1[k], parse);
      if k < |a| {
        assert ea[k] == Effect(a[k], parse) && s1[k] == a[k];
      } else if k > |a| {
        assert eb[k - |a| - 1] == Effect(b[k - |a| - 1], parse) && s1[k] == b[k - |a| - 1];
      }
    }
    assert e1 == ea + [Ignore] + eb;
    var s2, e2 := a + b, Effects(a + b, parse);
    forall k | 0 <= k < |s2|
      ensures e2[k] == (ea + eb)[k]
    {
      assert e2[k] == Effect(s2[k], parse);
      if k < |a| {
        assert ea[k] == Effect(a[k], parse) && s2[k] == a[k];
      } else {
        assert eb[k - |a|] == Effect(b[k - |a|], parse) && s2[k] == b[k - |a|];
      }
    }
    assert e2 == ea + eb;
  }

  /** The body of the streaming request. */
  datatype Request = Request(conversationId: ConversationId, message: string)

  /** With distinct names, `name` is in the list afterwards and nothing else changed. */
  function WithContextFile(names: seq<string>, name: string): (r: seq<string>)
    ensures forall x :: x in r <==> x in names || x == name
    ensures name in names ==> r == names
    ensures Distinct(names) ==> Distinct(r)
  {
    if name in names then names else names + [name]
  }

  /** The panel's own state: the context files and the input text. */
  class ChatPanel {
    var contextFiles: seq<string>
    var input: string

    /** No name is listed twice. */
    ghost predicate Valid()
      reads this
    {
      Distinct(contextFiles)
    }

    constructor()
      ensures contextFiles == [] && input == ""
      ensures Valid()
    {
      contextFiles := [];
      input := "";
    }

    /** The effect on `selectedFileName`: a non-empty selection joins the list unless listed. */
    method OnSelectedFileName(selected: string)
      requires Valid()
      modifies this
      ensures selected != "" ==> contextFiles == WithContextFile(old(contextFiles), selected)
      ensures selected == "" ==> contextFiles == old(contextFiles)
      ensures input == old(input)
      ensures Valid()
    {
      if selected != "" && selected !in contextFiles {
        contextFiles := contextFiles + [selected];
      }
    }

    /** Choosing a file in the picker: it joins the list unless listed. */
    method PickFile(name: string)
      requires Valid()
      modifies this
      ensures contextFiles == WithContextFile(old(contextFiles), name)
      ensures input == old(input)
      ensures Valid()
    {
      if name !in contextFiles {
        contextFiles := contextFiles + [name];
      }
    }

    /** The remove button of a chip: exactly that name leaves the list. */
    method RemoveContextFile(name: string)
      requires Valid()
      modifies this
      ensures contextFiles == Without(old(contextFiles), name)
      ensures name !in contextFiles
      ensures input == old(input)
      ensures Valid()
    {
      contextFiles := Without(contextFiles, name);
    }

    /** Typing in the text area. */
    method SetInput(text: string)
      modifies this
      ensures input == text && contextFiles == old(contextFiles)
    {
      input := text;
    }

    /**
     * `submitChat(text)`: nothing happens for blank text or while a reply
     * streams. Otherwise the user message, the typing flag and an empty
     * assistant message go to the store in that order, the request carries
     * the prompt, the reply is read into the assistant message, and the
     * typing flag is cleared however the reading ended.
     */
    method SubmitChat(store: Store, fs: Files, text: string, chunks: seq<string>,
                      parse: string -> Option<string>) returns (request: Option<Request>)
      modifies store
      ensures IsBlank(text) || old(store.isTyping) ==>
        && request.None?
        && store.messages == old(store.messages)
        && store.isTyping == old(store.isTyping)
      ensures !IsBlank(text) && !old(store.isTyping) ==>
        && request == Some(Request(old(store.conversationId), FinalPrompt(fs, contextFiles, text)))
        && store.messages == old(store.messages)
             + [Message(User, text), Message(Assistant, Concat(StreamDeltas(chunks, parse)))]
        && !store.isTyping
      ensures store.conversationId == old(store.conversationId)
    {
      if IsBlank(text) || store.isTyping {
        return None;
      }
      var prompt := FinalPrompt(fs, contextFiles, text);
      var sent := Send(store, text, prompt, chunks, parse);
      request := Some(sent);
    }

    /** `handleSend()`: submit the input, then clear it. */
    method HandleSend(store: Store, fs: Files, chunks: seq<string>,
                      parse: string -> Option<string>) returns (request: Option<Request>)
      modifies this, store
      ensures !IsBlank(old(input)) && !old(store.isTyping) ==>
        && request == Some(Request(old(store.conversationId), FinalPrompt(fs, old(contextFiles), old(input))))
        && store.messages == old(store.messages)
             + [Message(User, old(input)), Message(Assistant, Concat(StreamDeltas(chunks, parse)))]
        && !store.isTyping
      ensures IsBlank(old(input)) || old(store.isTyping) ==>
        request.None? && store.messages == old(store.messages) && store.isTyping == old(store.isTyping)
      ensures input == "" && contextFiles == old(contextFiles)
    {
      request := SubmitChat(store, fs, input, chunks, parse);
      input := "";
    }
  }

  /**
   * The sending half of `submitChat`: the user message, the typing flag and
   * an empty assistant message go to the store, the request is built, the
   * reply is read into the assistant message and the typing flag is cleared.
   */
  method Send(store: Store, text: string, prompt: string, chunks: seq<string>,
              parse: string -> Option<string>) returns (request: Request)
    modifies store
    ensures request == Request(old(store.conversationId), prompt)
    ensures store.messages == old(store.messages)
      + [Message(User, text), Message(Assistant, Concat(StreamDeltas(chunks, parse)))]
    ensures !store.isTyping && store.conversationId == old(store.conversationId)
  {
    store.AddMessage(Message(User, text));
    store.SetIsTyping(true);
    store.AddMessage(Message(Assistant, ""));
    request := Request(store.conversationId, prompt);
    ghost var sent := store.messages;
    var streamed := ReadStream(store, chunks, parse);
    UpdateAfterAppend(sent[..|sent| - 1], streamed);
    assert sent == sent[..|sent| - 1] + [Message(Assistant, "")];
    store.SetIsTyping(false);
  }

  /**
   * The reading loop: every chunk's lines in turn, each parsed content
   * appended to the running text and the running text written to the
   * last message.
   */
  method ReadStream(store: Store, chunks: seq<string>, parse: string -> Option<string>) returns (streamed: string)
    modifies store
    ensures streamed == Concat(StreamDeltas(chunks, parse))
    ensures |StreamDeltas(chunks, parse)| == 0 ==> store.messages == old(store.messages)
    ensures |StreamDeltas(chunks, parse)| > 0 ==> store.messages == UpdatedLast(old(store.messages), streamed)
    ensures store.conversationId == old(store.conversationId) && store.isTyping == old(store.isTyping)
  {
    streamed := "";
    var k := 0;
    while k < |chunks|
      invariant 0 <= k <= |chunks|
      invariant streamed == Concat(StreamDeltas(chunks[..k], parse))
      invariant |StreamDeltas(chunks[..k], parse)| == 0 ==> store.messages == old(store.messages)
      invariant |StreamDeltas(chunks[..k], parse)| > 0 ==> store.messages == UpdatedLast(old(store.messages), streamed)
      invariant store.conversationId == old(store.conversationId) && store.isTyping == old(store.isTyping)
    {
      streamed := ReadChunk(store, chunks, parse, k, streamed, old(store.messages));
      k := k + 1;
    }
    assert chunks[..k] == chunks;
  }

  /**
   * The body of the outer loop for chunk `k`, with the loop's invariant as
   * its pre- and postcondition: the chunk is split at `\n` and its lines read.
   */
  method ReadChunk(store: Store, chunks: seq<string>, parse: string -> Option<string>, k: nat,
                   prior: string, ghost start: seq<Message>) returns (streamed: string)
    requires k < |chunks|
    requires prior == Concat(StreamDeltas(chunks[..k], parse))
    requires |StreamDeltas(chunks[..k], parse)| == 0 ==> store.messages == start
    requires |StreamDeltas(chunks[..k], parse)| > 0 ==> store.messages == UpdatedLast(start, prior)
    modifies store
    ensures streamed == Concat(StreamDeltas(chunks[..k + 1], parse))
    ensures |StreamDeltas(chunks[..k + 1], parse)| == 0 ==> store.messages == start
    ensures |StreamDeltas(chunks[..k + 1], parse)| > 0 ==> store.messages == UpdatedLast(start, streamed)
    ensures store.conversationId == old(store.conversationId) && store.isTyping == old(store.isTyping)
  {
    ghost var before := StreamDeltas(chunks[..k], parse);
    ghost var current := store.messages;
    var lines := SplitOn(chunks[k], '\n');
    streamed := ReadLines(store, lines, parse, prior);
    ghost var got := ChunkDeltas(lines, parse);
    ConcatAppend(before, got);
    if |got| > 0 {
      assert store.messages == UpdatedLast(current, streamed);
      if |before| > 0 {
        UpdatedLastTwice(start, prior, streamed);
      }
      assert store.messages == UpdatedLast(start, streamed);
    } else {
      assert Concat(got) == "";
      assert streamed == prior;
      assert store.messages == current;
    }
    assert chunks[..k + 1][..k] == chunks[..k];
    assert StreamDeltas(chunks[..k + 1], parse) == before + got;
  }

  /**
   * The lines of one chunk: data lines until a `[DONE]` payload, each
   * parsed content appended to `prior` and the running text written to
   * the last message.
   */
  method ReadLines(store: Store, lines: seq<string>, parse: string -> Option<string>, prior: string)
    returns (streamed: string)
    modifies store
    ensures streamed == prior + Concat(ChunkDeltas(lines, parse))
    ensures |ChunkDeltas(lines, parse)| == 0 ==> store.messages == old(store.messages)
    ensures |ChunkDeltas(lines, parse)| > 0 ==> store.messages == UpdatedLast(old(store.messages), streamed)
    ensures store.conversationId == old(store.conversationId) && store.isTyping == old(store.isTyping)
  {
    streamed := prior;
    ghost var effects := Effects(lines, parse);
    ghost var got: seq<string> := [];
    var j := 0;
    while j < |lines|
      invariant 0 <= j <= |lines|
      invariant Deltas(effects) == got + Deltas(effects[j..])
      invariant streamed == prior + Concat(got)
      invariant |got| == 0 ==> store.messages == old(store.messages)
      invariant |got| > 0 ==> store.messages == UpdatedLast(old(store.messages), streamed)
      invariant store.conversationId == old(store.conversationId) && store.isTyping == old(store.isTyping)
    {
      var stop;
      stop, streamed, got := ReadStep(store, lines, parse, j, effects, prior, got, streamed, old(store.messages));
      if stop {
        break;
      }
      j := j + 1;
    }
    assert ChunkDeltas(lines, parse) == got;
  }

  /**
   * The body of the inner loop for line `j`, with the loop's invariant as
   * its pre- and postcondition: `got` is the contents read so far.
   */
  method ReadStep(store: Store, lines: seq<string>, parse: string -> Option<string>, j: nat,
                  ghost effects: seq<LineEffect>, ghost prior: string, ghost got: seq<string>,
                  current: string, ghost start: seq<Message>)
    returns (stop: bool, streamed: string, ghost now: seq<string>)
    requires j < |lines| && effects == Effects(lines, parse)
    requires Deltas(effects) == got + Deltas(effects[j..])
    requires current == prior + Concat(got)
    requires |got| == 0 ==> store.messages == start
    requires |got| > 0 ==> store.messages == UpdatedLast(start, current)
    modifies store
    ensures stop ==> Deltas(effects) == now
    ensures !stop ==> Deltas(effects) == now + Deltas(effects[j + 1..])
    ensures streamed == prior + Concat(now)
    ensures |now| == 0 ==> store.messages == start
    ensures |now| > 0 ==> store.messages == UpdatedLast(start, streamed)
    ensures store.conversationId == old(store.conversationId) && store.isTyping == old(store.isTyping)
  {
    var line := lines[j];
    DeltasFrom(effects, j);
    ghost var e := Effect(line, parse);
    assert effects[j] == e;
    now := got;
    stop, streamed := ReadLine(store, line, parse, current);
    if !stop && e.Append? {
      DeltasAppended(effects, j, got);
      StreamedAppended(got, prior, e.content);
      UpdatedLastTwice(start, current, streamed);
      now := got + [e.content];
    }
  }

  /** The contents read so far grow by an appended line's content. */
  lemma DeltasAppended(effects: seq<LineEffect>, j: nat, got: seq<string>)
    requires j < |effects| && effects[j].Append?
    requires Deltas(effects) == got + Deltas(effects[j..])
    ensures Deltas(effects) == (got + [effects[j].content]) + Deltas(effects[j + 1..])
  {
    var content := effects[j].content;
    var rest := Deltas(effects[j + 1..]);
    DeltasFrom(effects, j);
    assert got + ([content] + rest) == (got + [content]) + rest;
  }

  /** The running text grows by an appended content. */
  lemma StreamedAppended(got: seq<string>, prior: string, content: string)
    ensures prior + Concat(got) + content == prior + Concat(got + [content])
  {
    AppendOne(got, content);
    assert (prior + Concat(got)) + content == prior + (Concat(got) + content);
  }

  /**
   * One line of a chunk: a `[DONE]` payload stops the chunk; a payload that
   * parses appends its content to the running text, which is written to the
   * last message; any other line changes nothing.
   */
  method ReadLine(store: Store, line: string, parse: string -> Option<string>, prior: string)
    returns (stop: bool, streamed: string)
    modifies store
    ensures stop <==> Effect(line, parse) == Stop
    ensures Effect(line, parse).Append? ==>
      && streamed == prior + Effect(line, parse).content
      && store.messages == UpdatedLast(old(store.messages), streamed)
    ensures !Effect(line, parse).Append? ==> streamed == prior && store.messages == old(store.messages)
    ensures store.conversationId == old(store.conversationId) && store.isTyping == old(store.isTyping)
  {
    streamed := prior;
    stop := false;
    var data := Payload(line);
    if data.Some? {
      var payload := data.value;
      if payload == "[DONE]" {
        return true, streamed;
      }
      var content := parse(payload);
      if content.Some? {
        streamed := streamed + content.value;
        store.UpdateLastMessage(streamed);
      }
    }
  }
}
