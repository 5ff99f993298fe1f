/**
 * The chat page (client/src/pages/chat.tsx): the streaming consumer inside
 * `getAIResponseMutation` with its `onError`, new-chat title derivation and
 * the quick-topic question lookup.
 *
 * `fetch`, the body reader and `TextDecoder` become a sequence of decoded
 * chunks; `JSON.parse` of a payload is the oracle `parse`.
 */
module ChatPage {
  import opened Wrappers
  import opened Text
  import opened Storage
  import ChatUtils
  import Responses

  // ------------------------------------------------------- the read loop

  /** What the loop sees of `JSON.parse(payload)`. */
  datatype Payload =
    | ContentEvent(content: string)
    | CompleteEvent(message: Message)
    | ErrorEvent(error: string)
    | OtherType                      // parsed, but `type` is none of the three
    | Malformed                      // JSON.parse (or reading `type`) throws

  const DataPrefix := "data: "

  /** The page state the loop touches. */
  datatype View = View(isStreaming: bool, streamingMessage: string, invalidated: bool)

  /** Reading goes on, or the loop has returned a message. */
  datatype Progress = Reading(view: View) | Returned(view: View, message: Message)

  /**
   * One line. Only `data: ` lines are parsed. `content` replaces the buffer;
   * `complete` clears the state, requests invalidation and returns; `error`
   * clears the state and throws inside the same `try`, so its `catch` (meant
   * for malformed JSON) swallows it and reading goes on.
   */
  function HandleLine(v: View, line: string, parse: string -> Payload): Progress {
    if !StartsWith(line, DataPrefix) then Reading(v)
    else
      match parse(line[|DataPrefix|..])
      case ContentEvent(c) => Reading(v.(streamingMessage := c))
      case CompleteEvent(m) => Returned(v.(isStreaming := false, streamingMessage := "", invalidated := true), m)
      case ErrorEvent(_) => Reading(v.(isStreaming := false, streamingMessage := ""))
      case OtherType => Reading(v)
      case Malformed => Reading(v)
  }

  function HandleLines(v: View, lines: seq<string>, parse: string -> Payload): Progress
    decreases lines
  {
    if lines == [] then Reading(v)
    else
      match HandleLine(v, lines[0], parse)
      case Returned(w, m) => Returned(w, m)
      case Reading(w) => HandleLines(w, lines[1..], parse)
  }

  /** Every chunk is split on "\n" on its own: nothing is carried to the next chunk. */
  function HandleChunks(v: View, chunks: seq<string>, parse: string -> Payload): Progress
    decreases chunks
  {
    if chunks == [] then Reading(v)
    else
      match HandleLines(v, Split(chunks[0], "\n"), parse)
      case Returned(w, m) => Returned(w, m)
      case Reading(w) => HandleChunks(w, chunks[1..], parse)
  }

  // ------------------------------------------------------ the page state

  datatype Endpoint = RespondLegacy | RespondStream

  /** How the mutation settles: resolved (possibly with undefined) or rejected. */
  datatype Outcome = Resolved(value: Option<Message>) | Rejected

  class ChatPageState {
    var isStreaming: bool
    var streamingMessage: string
    var invalidateRequested: bool
    var errorToasts: nat          // "Failed to get AI response" notices shown
    var requests: seq<Endpoint>   // requests issued, in order

    function CurrentView(): View
      reads this
    {
      View(isStreaming, streamingMessage, invalidateRequested)
    }

    constructor ()
      ensures !isStreaming && streamingMessage == "" && !invalidateRequested
      ensures errorToasts == 0 && requests == []
    {
      isStreaming, streamingMessage, invalidateRequested := false, "", false;
      errorToasts, requests := 0, [];
    }

    /** The mutation's `onError`. */
    method OnError()
      modifies this
      ensures !isStreaming && streamingMessage == ""
      ensures errorToasts == old(errorToasts) + 1
      ensures invalidateRequested == old(invalidateRequested) && requests == old(requests)
    {
      isStreaming := false;
      streamingMessage := "";
      errorToasts := errorToasts + 1;
    }

    /** One line of the read loop; `Some(m)` when it returned `m`. */
    method ReadLine(line: string, parse: string -> Payload) returns (completed: Option<Message>)
      modifies this
      ensures match HandleLine(old(CurrentView()), line, parse)
        case Returned(w, m) => completed == Some(m) && CurrentView() == w
        case Reading(w) => completed == None && CurrentView() == w
      ensures errorToasts == old(errorToasts) && requests == old(requests)
    {
      completed := None;
      if StartsWith(line, DataPrefix) {
        match parse(line[|DataPrefix|..])
        case ContentEvent(c) =>
          streamingMessage := c;
        case CompleteEvent(m) =>
          isStreaming := false;
          streamingMessage := "";
          invalidateRequested := true;
          completed := Some(m);
        case ErrorEvent(_) =>
          isStreaming := false;
          streamingMessage := "";
        case OtherType =>
        case Malformed =>
      }
    }

    /** The lines of one decoded chunk; `Some(m)` when a line returned `m`. */
    method ReadChunk(chunk: string, parse: string -> Payload) returns (completed: Option<Message>)
      modifies this
      ensures match HandleLines(old(CurrentView()), Split(chunk, "\n"), parse)
        case Returned(w, m) => completed == Some(m) && CurrentView() == w
        case Reading(w) => completed == None && CurrentView() == w
      ensures errorToasts == old(errorToasts) && requests == old(requests)
    {
      var lines := Split(chunk, "\n");
      ghost var start := CurrentView();
      var j := 0;
      while j < |lines|
        invariant 0 <= j <= |lines|
        invariant HandleLines(CurrentView(), lines[j..], parse) == HandleLines(start, lines, parse)
        invariant errorToasts == old(errorToasts) && requests == old(requests)
      {
        assert lines[j..][0] == lines[j] && lines[j..][1..] == lines[j + 1..];
        completed := ReadLine(lines[j], parse);
        if completed.Some? {
          return;
        }
        j := j + 1;
      }
      completed := None;
    }

    /**
     * `getAIResponseMutation.mutate(...)` run to the end, `onError` included.
     * `legacyReply` is the legacy request's result (`None`: it failed);
     * `body` the decoded chunks (`None`: no body); `readFails` says whether
     * the read after the last chunk rejects.
     */
    method GetAIResponse(streamingEnabled: bool, legacyReply: Option<Message>, body: Option<seq<string>>,
                         readFails: bool, parse: string -> Payload)
      returns (outcome: Outcome)
      modifies this
      ensures !streamingEnabled ==> requests == old(requests) + [RespondLegacy]
      ensures !streamingEnabled && legacyReply.Some? ==>
        && outcome == Resolved(legacyReply) && CurrentView() == old(CurrentView())
        && errorToasts == old(errorToasts)
      ensures !streamingEnabled && legacyReply.None? ==>
        && outcome == Rejected && errorToasts == old(errorToasts) + 1
        && CurrentView() == old(CurrentView()).(isStreaming := false, streamingMessage := "")
      ensures streamingEnabled ==> requests == old(requests) + [RespondStream]
      ensures streamingEnabled && body.None? ==>
        && outcome == Rejected && errorToasts == old(errorToasts) + 1
        && CurrentView() == View(false, "", old(invalidateRequested))
      ensures streamingEnabled && body.Some? ==>
        match HandleChunks(View(true, "", old(invalidateRequested)), body.value, parse)
        case Returned(w, m) =>
          outcome == Resolved(Some(m)) && CurrentView() == w && errorToasts == old(errorToasts)
        case Reading(w) =>
          if readFails then
            && outcome == Rejected && errorToasts == old(errorToasts) + 1
            && CurrentView() == w.(isStreaming := false, streamingMessage := "")
          else
            outcome == Resolved(None) && CurrentView() == w && errorToasts == old(errorToasts)
    {
      if !streamingEnabled {
        requests := requests + [RespondLegacy];
        if legacyReply.None? {
          OnError();
          return Rejected;
        }
        return Resolved(legacyReply);
      }
      isStreaming := true;
      streamingMessage := "";
      requests := requests + [RespondStream];
      if body.None? {
        OnError();
        return Rejected;
      }
      var chunks := body.value;
      ghost var start := CurrentView();
      var i := 0;
      while i < |chunks|
        invariant 0 <= i <= |chunks|
        invariant HandleChunks(CurrentView(), chunks[i..], parse) == HandleChunks(start, chunks, parse)
        invariant errorToasts == old(errorToasts) && requests == old(requests) + [RespondStream]
      {
        assert chunks[i..][0] == chunks[i] && chunks[i..][1..] == chunks[i + 1..];
        var completed := ReadChunk(chunks[i], parse);
        if completed.Some? {
          return Resolved(completed);
        }
        i := i + 1;
      }
      if readFails {
        OnError();
        return Rejected;
      }
      return Resolved(None);
    }
  }

  // ------------------------------------------------- properties of the loop

  /** A line without the `data: ` prefix changes nothing. */
  lemma NonDataLineIgnored(v: View, line: string, parse: string -> Payload)
    requires !StartsWith(line, DataPrefix)
    ensures HandleLine(v, line, parse) == Reading(v)
  {
  }

  /** A payload that does not parse changes nothing. */
  lemma MalformedPayloadIgnored(v: View, payload: string, parse: string -> Payload)
    requires parse(payload) == Malformed
    ensures HandleLine(v, DataPrefix + payload, parse) == Reading(v)
  {
    assert (DataPrefix + payload)[..|DataPrefix|] == DataPrefix;
    assert (DataPrefix + payload)[|DataPrefix|..] == payload;
  }

  predicate IsContentLine(line: string, parse: string -> Payload) {
    StartsWith(line, DataPrefix) && parse(line[|DataPrefix|..]).ContentEvent?
  }

  /** The text a content line carries ("" for any other line). */
  function ContentOf(line: string, parse: string -> Payload): string {
    if IsContentLine(line, parse) then parse(line[|DataPrefix|..]).content else ""
  }

  /**
   * Content events replace the buffer instead of appending: after a run of
   * them the buffer holds the last one's text, whatever it held before.
   */
  lemma {:induction false} LastContentWins(v: View, lines: seq<string>, parse: string -> Payload)
    requires |lines| > 0
    requires forall k :: 0 <= k < |lines| ==> IsContentLine(lines[k], parse)
    ensures HandleLines(v, lines, parse) == Reading(v.(streamingMessage := ContentOf(lines[|lines| - 1], parse)))
    decreases lines
  {
    assert IsContentLine(lines[0], parse);
    var w := v.(streamingMessage := ContentOf(lines[0], parse));
    assert HandleLine(v, lines[0], parse) == Reading(w);
    if |lines| > 1 {
      assert forall k :: 0 <= k < |lines| - 1 ==> lines[1..][k] == lines[k + 1];
      LastContentWins(w, lines[1..], parse);
    } else {
      assert lines[1..] == [];
    }
  }

  /** An `error` event clears the state and reading continues with the next line. */
  lemma ErrorEventDoesNotStop(v: View, line: string, rest: seq<string>, parse: string -> Payload)
    requires StartsWith(line, DataPrefix) && parse(line[|DataPrefix|..]).ErrorEvent?
    ensures HandleLines(v, [line] + rest, parse) ==
      HandleLines(v.(isStreaming := false, streamingMessage := ""), rest, parse)
  {
    assert ([line] + rest)[1..] == rest;
  }

  /** After `complete`, no later line of the chunk and no later chunk is looked at. */
  lemma {:induction false} CompleteIsFinal(v: View, chunks: seq<string>, later: seq<string>, parse: string -> Payload)
    requires HandleChunks(v, chunks, parse).Returned?
    ensures HandleChunks(v, chunks + later, parse) == HandleChunks(v, chunks, parse)
    decreases chunks
  {
    assert (chunks + later)[0] == chunks[0];
    match HandleLines(v, Split(chunks[0], "\n"), parse)
    case Returned(w, m) =>
    case Reading(w) =>
      assert (chunks + later)[1..] == chunks[1..] + later;
      CompleteIsFinal(w, chunks[1..], later, parse);
  }

  /** The lines after a `complete` line in the same chunk are not looked at. */
  lemma CompleteLineIsFinal(v: View, line: string, rest: seq<string>, parse: string -> Payload)
    requires StartsWith(line, DataPrefix) && parse(line[|DataPrefix|..]).CompleteEvent?
    ensures HandleLines(v, [line] + rest, parse) ==
      Returned(View(false, "", true), parse(line[|DataPrefix|..]).message)
  {
  }

  /**
   * A `data:` line cut inside its prefix across two chunks is lost: neither
   * half starts with `data: `, whatever the payload.
   */
  lemma SplitDataLineIsDropped(v: View, line: string, k: int, parse: string -> Payload)
    requires StartsWith(line, DataPrefix) && '\n' !in line
    requires 1 <= k < |DataPrefix|
    ensures HandleChunks(v, [line[..k], line[k..]], parse) == Reading(v)
  {
    var a, b := line[..k], line[k..];
    MissingCharNotContained(a, "\n", '\n');
    MissingCharNotContained(b, "\n", '\n');
    SplitWithoutSeparator(a, "\n");
    SplitWithoutSeparator(b, "\n");
    assert b[0] == line[k] && line[k] == DataPrefix[k];
    assert !StartsWith(a, DataPrefix) && !StartsWith(b, DataPrefix);
    var onlyA: seq<string>, onlyB: seq<string> := [a], [b];
    assert onlyA[1..] == [] && onlyB[1..] == [];
    assert HandleLines(v, onlyA, parse) == Reading(v);
    assert HandleLines(v, onlyB, parse) == Reading(v);
    var cs: seq<string> := [a, b];
    assert cs[0] == a && cs[1..] == onlyB && onlyB[0] == b;
    assert Split(a, "\n") == onlyA && Split(b, "\n") == onlyB;
    assert HandleChunks(v, onlyB[1..], parse) == Reading(v);
    assert HandleChunks(v, onlyB, parse) == Reading(v);
    assert HandleChunks(v, cs, parse) == Reading(v);
  }

  /** The start of a stream: streaming on and an empty buffer, before any event. */
  lemma StreamOfNoChunks(invalidated: bool, parse: string -> Payload)
    ensures HandleChunks(View(true, "", invalidated), [], parse) == Reading(View(true, "", invalidated))
  {
  }

  // ------------------------------------------------------ title and topics

  /** `content.slice(0, 50) + (content.length > 50 ? "..." : "")`. */
  function NewChatTitle(content: string): (title: string)
    ensures |content| <= 50 ==> title == content
    ensures |content| > 50 ==> |title| == 53 && title[..50] == content[..50] && title[50..] == "..."
  {
    (if |content| <= 50 then content else content[..50]) + (if |content| > 50 then "..." else "")
  }

  /** A title is its own title: deriving it again changes nothing. */
  lemma NewChatTitleIdempotent(content: string)
    ensures NewChatTitle(NewChatTitle(content)) == NewChatTitle(content)
  {
    var t := NewChatTitle(content);
    if |content| > 50 {
      assert t[..50] == content[..50];
    }
  }

  /** `topicQuestions[topic]` in `handleQuickTopic`. */
  function TopicQuestion(topic: string): Option<string> {
    var questions := map[
      "assembly" := "How do I assemble a drone for the first time?",
      "components" := "What are the essential components of a drone?",
      "maintenance" := "How do I maintain my drone properly?",
      "simulation" := "How can I use Simscape for drone simulations?",
      "rules" := "What are the DGCA regulations for drones in India?",
      "usecases" := "What are the main use cases for drones in agriculture?"];
    if topic in questions then Some(questions[topic]) else None
  }

  /** The page's questions are the quick-topic table's, for exactly its keys. */
  lemma TopicQuestionsAgreeWithQuickTopics(topic: string)
    ensures TopicQuestion(topic).Some? <==> topic in ChatUtils.QuickTopics
    ensures topic in ChatUtils.QuickTopics ==> TopicQuestion(topic) == Some(ChatUtils.QuickTopics[topic].question)
  {
  }

  /**
   * A quick topic sends its question together with the topic, so the server
   * answers with that language's entry for the topic (or its default).
   */
  lemma QuickTopicAnswer(topic: string, language: string)
    requires TopicQuestion(topic).Some?
    ensures Responses.GenerateAIResponse(TopicQuestion(topic).value, language, Some(topic))
         == Responses.TopicOrDefault(Responses.LanguageTable(language), topic)
  {
  }
}
