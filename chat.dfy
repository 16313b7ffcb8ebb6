/**
 * The conversation state of the chat window (`ChatContainer`): the list of
 * displayed messages, the selected model and the "processing" flag, and how
 * one user submission changes them around a `streamChat` call.
 *
 * Identifiers (`uuidv4`) and timestamps (`new Date()`) are parameters.
 */
module Chat {
  import opened Wrappers
  import opened Ollama

  /** One displayed turn. `isStreaming` is an optional field in the source. */
  datatype Message = Message(
    id: string,
    role: Role,
    content: string,
    timestamp: int,
    isStreaming: Option<bool>)

  /** The text that replaces the reply when the stream fails. */
  const ErrorContent: string := "Error: Failed to communicate with Ollama. Is the server running?"

  /** `response.message?.content || ""`: the text a record appends. */
  function Fragment(response: OllamaResponse): string
  {
    match response.message
    case Some(m) => m.content
    case None => ""
  }

  /** The new user turn. */
  function UserMessage(id: string, content: string, now: int): Message
  {
    Message(id, User, content, now, None)
  }

  /** The empty assistant turn that the stream fills in. */
  function Placeholder(id: string, now: int): Message
  {
    Message(id, Assistant, "", now, Some(true))
  }

  /** `messages.map(msg => msg.id === id ? update(msg) : msg)`. */
  function UpdateById(messages: seq<Message>, id: string, update: Message -> Message): (r: seq<Message>)
    ensures |r| == |messages|
    ensures forall k :: 0 <= k < |r| && messages[k].id == id ==> r[k] == update(messages[k])
    ensures forall k :: 0 <= k < |r| && messages[k].id != id ==> r[k] == messages[k]
  {
    if messages == [] then []
    else
      var head := if messages[0].id == id then update(messages[0]) else messages[0];
      [head] + UpdateById(messages[1..], id, update)
  }

  /** The callback's update: append the fragment, streaming until `done`. */
  function ApplyResponse(messages: seq<Message>, id: string, response: OllamaResponse): seq<Message>
  {
    UpdateById(messages, id,
      (m: Message) => m.(content := m.content + Fragment(response), isStreaming := Some(!response.done)))
  }

  /** The `catch` block's update: the reply becomes the error text and stops streaming. */
  function ApplyFailure(messages: seq<Message>, id: string): seq<Message>
  {
    UpdateById(messages, id, (m: Message) => m.(content := ErrorContent, isStreaming := Some(false)))
  }

  /** The records of one stream applied one after the other. */
  function ApplyResponses(messages: seq<Message>, id: string, responses: seq<OllamaResponse>): seq<Message>
  {
    if responses == [] then messages
    else ApplyResponse(ApplyResponses(messages, id, responses[..|responses| - 1]), id, responses[|responses| - 1])
  }

  /** The fragments of `responses`, concatenated in arrival order. */
  function Fragments(responses: seq<OllamaResponse>): string
  {
    if responses == [] then ""
    else Fragments(responses[..|responses| - 1]) + Fragment(responses[|responses| - 1])
  }

  /** Some record in `responses` has `done: true`. */
  predicate AnyDone(responses: seq<OllamaResponse>) {
    exists k :: 0 <= k < |responses| && responses[k].done
  }

  /** The prior turns sent to the server: user and assistant turns, as `{role, content}`. */
  function ChatTurns(messages: seq<Message>): (r: seq<OllamaMessage>)
    ensures |r| <= |messages|
    ensures forall k :: 0 <= k < |r| ==> r[k].role != System
  {
    if messages == [] then []
    else if messages[0].role == System then ChatTurns(messages[1..])
    else [OllamaMessage(messages[0].role, messages[0].content)] + ChatTurns(messages[1..])
  }

  /** `chatHistory`: the prior turns of the snapshot, then the new user turn. */
  function History(snapshot: seq<Message>, content: string): (r: seq<OllamaMessage>)
    ensures |r| >= 1 && r[|r| - 1] == OllamaMessage(User, content)
    ensures r[..|r| - 1] == ChatTurns(snapshot)
  {
    ChatTurns(snapshot) + [OllamaMessage(User, content)]
  }

  // ---------------------------------------------------------------------
  // Properties of the updates

  /**
   * After the records `responses`, only the message with the assistant id has
   * changed: its content is the old content followed by every fragment in
   * order, and it is streaming exactly when the last record was not `done`.
   */
  lemma {:induction false} ApplyResponsesAt(messages: seq<Message>, id: string, responses: seq<OllamaResponse>, k: nat)
    requires k < |messages|
    ensures |ApplyResponses(messages, id, responses)| == |messages|
    ensures messages[k].id != id ==> ApplyResponses(messages, id, responses)[k] == messages[k]
    ensures messages[k].id == id ==>
              ApplyResponses(messages, id, responses)[k]
                == messages[k].(content := messages[k].content + Fragments(responses),
                                isStreaming := if responses == [] then messages[k].isStreaming
                                               else Some(!responses[|responses| - 1].done))
  {
    if responses != [] {
      ApplyResponsesAt(messages, id, responses[..|responses| - 1], k);
    }
  }

  /** A failure replaces the reply's text, whatever it was, and touches nothing else. */
  lemma FailureEffect(messages: seq<Message>, id: string, k: nat)
    requires k < |messages|
    ensures |ApplyFailure(messages, id)| == |messages|
    ensures messages[k].id == id ==>
              ApplyFailure(messages, id)[k] == messages[k].(content := ErrorContent, isStreaming := Some(false))
    ensures messages[k].id != id ==> ApplyFailure(messages, id)[k] == messages[k]
  {
  }

  /** The turns of consecutive message lists are the turns of each, in order. */
  lemma {:induction false} ChatTurnsAppend(a: seq<Message>, b: seq<Message>)
    ensures ChatTurns(a + b) == ChatTurns(a) + ChatTurns(b)
  {
    if a == [] {
      assert a + b == b;
    } else {
      assert (a + b)[1..] == a[1..] + b;
      ChatTurnsAppend(a[1..], b);
    }
  }

  /** Every user or assistant message is sent, and only those: system messages are dropped. */
  lemma {:induction false} ChatTurnsMembers(messages: seq<Message>, turn: OllamaMessage)
    ensures turn in ChatTurns(messages) <==>
            exists k :: 0 <= k < |messages| && messages[k].role != System &&
                        turn == OllamaMessage(messages[k].role, messages[k].content)
  {
    if messages != [] {
      ChatTurnsMembers(messages[1..], turn);
      if exists k :: 0 <= k < |messages| && messages[k].role != System &&
                     turn == OllamaMessage(messages[k].role, messages[k].content) {
        var k :| 0 <= k < |messages| && messages[k].role != System &&
                 turn == OllamaMessage(messages[k].role, messages[k].content);
        if k > 0 {
          assert messages[1..][k - 1] == messages[k];
        }
      }
      if exists k :: 0 <= k < |messages[1..]| && messages[1..][k].role != System &&
                     turn == OllamaMessage(messages[1..][k].role, messages[1..][k].content) {
        var k :| 0 <= k < |messages[1..]| && messages[1..][k].role != System &&
                 turn == OllamaMessage(messages[1..][k].role, messages[1..][k].content);
        assert messages[k + 1] == messages[1..][k];
      }
    }
  }

  /**
   * The history is built from the snapshot taken before the new turns were
   * added: sending it a second time does not repeat the placeholder, and its
   * last entry is the user turn just typed.
   */
  lemma HistoryExcludesPlaceholder(snapshot: seq<Message>, content: string, userId: string, assistantId: string,
                                    userTime: int, replyTime: int)
    ensures ChatTurns(snapshot + [UserMessage(userId, content, userTime), Placeholder(assistantId, replyTime)])
         == History(snapshot, content) + [OllamaMessage(Assistant, "")]
  {
    var added := [UserMessage(userId, content, userTime), Placeholder(assistantId, replyTime)];
    ChatTurnsAppend(snapshot, added);
    assert added[1..] == [Placeholder(assistantId, replyTime)];
    assert added[1..][1..] == [];
  }

  /** A reply alone in the list ends with every fragment appended and the last record's `done`. */
  lemma ApplyResponsesAlone(m: Message, id: string, responses: seq<OllamaResponse>)
    requires m.id == id && responses != []
    ensures ApplyResponses([m], id, responses)
         == [m.(content := m.content + Fragments(responses), isStreaming := Some(!responses[|responses| - 1].done))]
  {
    ApplyResponsesAt([m], id, responses, 0);
  }

  /** Three records contribute their three fragments, in order. */
  lemma FragmentsOfThree(responses: seq<OllamaResponse>)
    requires |responses| == 3
    ensures Fragments(responses) == Fragment(responses[0]) + Fragment(responses[1]) + Fragment(responses[2])
  {
    var one, two := responses[..1], responses[..2];
    assert one[..0] == [] && two[..1] == one && responses[..2] == two;
    assert Fragments(one) == "" + Fragment(responses[0]);
    assert Fragments(two) == Fragments(one) + Fragment(responses[1]);
  }

  /** The scenario of a three-record reply "He", "llo", "" with the last one `done`. */
  lemma HelloReply(id: string, now: int, model: string, t1: string, t2: string, t3: string)
    ensures
      var r := [OllamaResponse(model, t1, Some(OllamaMessage(Assistant, "He")), false),
                OllamaResponse(model, t2, Some(OllamaMessage(Assistant, "llo")), false),
                OllamaResponse(model, t3, Some(OllamaMessage(Assistant, "")), true)];
      ApplyResponses([Placeholder(id, now)], id, r)
        == [Message(id, Assistant, "Hello", now, Some(false))]
  {
    var r := [OllamaResponse(model, t1, Some(OllamaMessage(Assistant, "He")), false),
              OllamaResponse(model, t2, Some(OllamaMessage(Assistant, "llo")), false),
              OllamaResponse(model, t3, Some(OllamaMessage(Assistant, "")), true)];
    ApplyResponsesAlone(Placeholder(id, now), id, r);
    FragmentsOfThree(r);
    assert "" + Fragments(r) == "Hello";
  }

  /**
   * The message list after one send from `prior`: the two new turns appended,
   * every delivered record applied, and the error text if the stream failed.
   */
  function AfterSend(prior: seq<Message>, content: string, userId: string, assistantId: string,
                     userTime: int, replyTime: int, streamed: Streamed): seq<Message>
  {
    var applied := ApplyResponses(prior + [UserMessage(userId, content, userTime), Placeholder(assistantId, replyTime)],
                                  assistantId, streamed.delivered);
    if streamed.outcome.Failed? then ApplyFailure(applied, assistantId) else applied
  }

  /** Processing is still on after a send: the stream completed without a `done` record. */
  predicate StillProcessing(streamed: Streamed) {
    streamed.outcome.Completed? && !AnyDone(streamed.delivered)
  }

  /** A `done` record among the first `i + 1` is one among the first `i`, or the last. */
  lemma AnyDoneExtend(responses: seq<OllamaResponse>, i: nat)
    requires i < |responses|
    ensures AnyDone(responses[..i + 1]) <==> AnyDone(responses[..i]) || responses[i].done
  {
    assert responses[..i + 1][i] == responses[i];
    if AnyDone(responses[..i]) {
      var k :| 0 <= k < i && responses[..i][k].done;
      assert responses[..i + 1][k] == responses[..i][k];
    }
    if AnyDone(responses[..i + 1]) && !responses[i].done {
      var k :| 0 <= k < i + 1 && responses[..i + 1][k].done;
      assert responses[..i][k] == responses[..i + 1][k];
    }
  }

  // ---------------------------------------------------------------------
  // The component

  class ChatContainer {
    var messages: seq<Message>
    var selectedModel: string
    var isProcessing: bool

    constructor ()
      ensures messages == [] && selectedModel == "" && !isProcessing
    {
      messages := [];
      selectedModel := "";
      isProcessing := false;
    }

    /** `onModelChange={setSelectedModel}`. */
    method SelectModel(name: string)
      modifies this`selectedModel
      ensures selectedModel == name
    {
      selectedModel := name;
    }

    /** The message input is disabled while a reply is streaming or no model is selected. */
    predicate InputDisabled()
      reads this
    {
      isProcessing || selectedModel == ""
    }

    /** The `onResponse` callback for the assistant turn `assistantId`. */
    method OnResponse(assistantId: string, response: OllamaResponse)
      modifies this`messages, this`isProcessing
      ensures messages == ApplyResponse(old(messages), assistantId, response)
      ensures isProcessing == (old(isProcessing) && !response.done)
    {
      messages := ApplyResponse(messages, assistantId, response);
      if response.done {
        isProcessing := false;
      }
    }

    /**
     * `handleSendMessage(content)`: returns the request sent to the server,
     * if any. `userId` and `assistantId` are the two fresh identifiers,
     * `userTime` and `replyTime` the two `new Date()` stamps, `parse` and
     * `response` the server's behaviour.
     */
    method HandleSendMessage(content: string, userId: string, assistantId: string,
                             userTime: int, replyTime: int,
                             parse: Parser, response: ChatResponse)
      returns (request: Option<ChatRequest>)
      requires userId != assistantId
      requires forall k :: 0 <= k < |messages| ==> messages[k].id != assistantId
      modifies this`messages, this`isProcessing
      ensures old(selectedModel) == "" ==>
                request == None && messages == old(messages) && isProcessing == old(isProcessing)
      ensures old(selectedModel) != "" ==>
                request == Some(ChatRequest(old(selectedModel), History(old(messages), content), true)) &&
                messages == AfterSend(old(messages), content, userId, assistantId, userTime, replyTime,
                                      Transfer(parse, response)) &&
                isProcessing == StillProcessing(Transfer(parse, response))
      ensures old(selectedModel) == "" ==> InputDisabled()
      ensures old(selectedModel) != "" ==> (InputDisabled() <==> StillProcessing(Transfer(parse, response)))
    {
      if selectedModel == "" {
        // the "No model selected" notice is shown; nothing changes
        return None;
      }
      var snapshot := messages;
      messages := messages + [UserMessage(userId, content, userTime), Placeholder(assistantId, replyTime)];
      isProcessing := true;
      var history := History(snapshot, content);
      var sent, delivered, outcome := StreamChat(selectedModel, history, parse, response);
      request := Some(sent);
      ghost var base := messages;
      for i := 0 to |delivered|
        invariant messages == ApplyResponses(base, assistantId, delivered[..i])
        invariant isProcessing == !AnyDone(delivered[..i])
      {
        assert delivered[..i + 1][..i] == delivered[..i];
        AnyDoneExtend(delivered, i);
        OnResponse(assistantId, delivered[i]);
      }
      assert delivered[..|delivered|] == delivered;
      if outcome.Failed? {
        // the "Connection Error" notice is shown
        messages := ApplyFailure(messages, assistantId);
        isProcessing := false;
      }
    }
  }

  /**
   * What one submission leaves behind, for a fresh assistant id: the earlier
   * messages are untouched, the user turn follows them, and the reply holds
   * every delivered fragment in order (streaming until a `done` record) when
   * the stream completed, or the error text when it failed.
   */
  lemma SendResult(prior: seq<Message>, content: string, userId: string, assistantId: string,
                   userTime: int, replyTime: int, streamed: Streamed)
    requires userId != assistantId
    requires forall k :: 0 <= k < |prior| ==> prior[k].id != assistantId
    ensures
      var final := AfterSend(prior, content, userId, assistantId, userTime, replyTime, streamed);
      var rs := streamed.delivered;
      |final| == |prior| + 2 && final[..|prior|] == prior &&
      final[|prior|] == UserMessage(userId, content, userTime) &&
      (streamed.outcome.Completed? ==>
         final[|prior| + 1]
           == Message(assistantId, Assistant, Fragments(rs), replyTime, Some(rs == [] || !rs[|rs| - 1].done))) &&
      (streamed.outcome.Failed? ==>
         final[|prior| + 1] == Message(assistantId, Assistant, ErrorContent, replyTime, Some(false)))
  {
    var base := prior + [UserMessage(userId, content, userTime), Placeholder(assistantId, replyTime)];
    var rs := streamed.delivered;
    var applied := ApplyResponses(base, assistantId, rs);
    var final := AfterSend(prior, content, userId, assistantId, userTime, replyTime, streamed);
    ApplyResponsesAt(base, assistantId, rs, |prior|);
    ApplyResponsesAt(base, assistantId, rs, |prior| + 1);
    forall k | 0 <= k < |prior| ensures final[k] == prior[k] {
      assert base[k] == prior[k];
      ApplyResponsesAt(base, assistantId, rs, k);
    }
  }
}
