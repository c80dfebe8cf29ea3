/** Sending a chat message: the request's message list, the fold over the
    streamed reply, and the effect of one send on the conversation store. */
module Send {
  import opened Wrappers
  import opened Text
  import opened Lists
  import Configs
  import Prompts
  import opened Conversations

  /** One entry of the request body's `messages` array. */
  datatype OutMessage = OutMessage(role: string, content: string)

  function RoleName(r: Role): string {
    match r
    case User => "user"
    case Assistant => "assistant"
  }

  /** `{ role: m.role, content: m.content }`. */
  function ToOut(m: Message): OutMessage {
    OutMessage(RoleName(m.role), m.content)
  }

  function ToOutAll(ms: seq<Message>): (r: seq<OutMessage>)
    ensures |r| == |ms| && forall k :: 0 <= k < |ms| ==> r[k] == ToOut(ms[k])
  {
    if ms == [] then [] else [ToOut(ms[0])] + ToOutAll(ms[1..])
  }

  /** How many history messages are sent: twice the turn setting, capped by
      the length of the history; none for a setting that is not positive. */
  function HistoryCount(historyLength: nat, contextTurns: int): nat {
    if contextTurns <= 0 then 0
    else if 2 * contextTurns < historyLength then 2 * contextTurns
    else historyLength
  }

  /** The history part of the request: `messages.slice(-(contextTurns * 2))`
      when there is history and the setting is positive, otherwise none. */
  function ContextMessages(history: seq<Message>, contextTurns: int): (r: seq<Message>)
    ensures |r| == HistoryCount(|history|, contextTurns)
    ensures r == history[|history| - |r|..]
  {
    if history != [] && contextTurns > 0 then LastN(history, 2 * contextTurns) else []
  }

  function SystemPart(systemPrompt: string): (r: seq<OutMessage>)
    ensures |r| == (if systemPrompt != [] then 1 else 0)
  {
    if systemPrompt != [] then [OutMessage("system", systemPrompt)] else []
  }

  /** The messages sent for `text`, given the conversation's messages before
      `text` was added: the system prompt when there is one, the last
      `contextTurns` exchanges, then the new user message, once. */
  function BuildMessages(systemPrompt: string, prior: seq<Message>, contextTurns: int,
                         text: string): seq<OutMessage>
  {
    SystemPart(systemPrompt) + ToOutAll(ContextMessages(prior, contextTurns)) + [OutMessage("user", text)]
  }

  /** The request is the system prompt (exactly when there is one), then the
      last `h` prior messages in their order, where `h` is twice the turn
      setting capped by the length of the history (none for a setting that
      is not positive), then the new user message. */
  lemma BuildMessagesSpec(systemPrompt: string, prior: seq<Message>, contextTurns: int, text: string)
    ensures var r := BuildMessages(systemPrompt, prior, contextTurns, text);
            var s := if systemPrompt != [] then 1 else 0;
            var h := HistoryCount(|prior|, contextTurns);
            && |r| == s + h + 1
            && (systemPrompt != [] <==> r[0].role == "system")
            && (systemPrompt != [] ==> r[0].content == systemPrompt)
            && r[s..s + h] == ToOutAll(prior[|prior| - h..])
            && r[|r| - 1] == OutMessage("user", text)
  {
    var sys := SystemPart(systemPrompt);
    var ctx := ToOutAll(ContextMessages(prior, contextTurns));
    var r := sys + ctx + [OutMessage("user", text)];
    assert BuildMessages(systemPrompt, prior, contextTurns, text) == r;
    assert |r| == |sys| + |ctx| + 1;
    assert r[|r| - 1] == OutMessage("user", text);
    assert r[|sys|..|sys| + |ctx|] == ctx;
    if systemPrompt != [] {
      assert r[0] == sys[0];
    } else if ctx != [] {
      assert r[0] == ctx[0];
      assert RoleName(ContextMessages(prior, contextTurns)[0].role) != "system";
    }
  }

  /** With a positive turn setting, the message just before the new one is
      the last message of the history: the new text is not sent twice. */
  lemma BuildMessagesSendsTextOnce(systemPrompt: string, prior: seq<Message>, contextTurns: int, text: string)
    requires contextTurns > 0 && prior != []
    ensures var r := BuildMessages(systemPrompt, prior, contextTurns, text);
            |r| >= 2 && r[|r| - 2] == ToOut(prior[|prior| - 1]) && r[|r| - 1] == OutMessage("user", text)
  {
    var sys := SystemPart(systemPrompt);
    var cm := ContextMessages(prior, contextTurns);
    var ctx := ToOutAll(cm);
    var r := sys + ctx + [OutMessage("user", text)];
    assert cm[|cm| - 1] == prior[|prior| - 1];
    assert r[|r| - 2] == ctx[|ctx| - 1];
  }

  /** The message list as `handleSendMessage` builds it: the user message is
      added to the conversation before the history is sliced, so the slice
      already holds it and it is pushed again at the end. */
  function BuildMessagesAsWritten(systemPrompt: string, prior: seq<Message>, contextTurns: int,
                                  text: string, now: nat): seq<OutMessage>
  {
    BuildMessages(systemPrompt, prior + [MakeMessage(User, text, now, None, None)], contextTurns, text)
  }

  /** As written, with any positive turn setting the new text is sent twice
      in a row. */
  lemma AsWrittenSendsTextTwice(systemPrompt: string, prior: seq<Message>, contextTurns: int,
                                text: string, now: nat)
    requires contextTurns > 0
    ensures var r := BuildMessagesAsWritten(systemPrompt, prior, contextTurns, text, now);
            |r| >= 2 && r[|r| - 2] == r[|r| - 1] == OutMessage("user", text)
  {
    var m := MakeMessage(User, text, now, None, None);
    BuildMessagesSendsTextOnce(systemPrompt, prior + [m], contextTurns, text);
    assert (prior + [m])[|prior + [m]| - 1] == m;
  }

  /** `hi` typed into an empty conversation with the default ten turns is
      sent as two user messages as written. */
  lemma AsWrittenHi(now: nat)
    ensures BuildMessagesAsWritten("", [], 10, "hi", now) == [OutMessage("user", "hi"), OutMessage("user", "hi")]
  {
    var m := MakeMessage(User, "hi", now, None, None);
    var u := OutMessage("user", "hi");
    assert [] + [m] == [m];
    assert ContextMessages([m], 10) == [m];
    assert ToOutAll([m]) == [u];
    calc {
      BuildMessagesAsWritten("", [], 10, "hi", now);
      BuildMessages("", [m], 10, "hi");
      SystemPart("") + ToOutAll(ContextMessages([m], 10)) + [u];
      [] + [u] + [u];
    }
  }

  /** Corrected, `hi` is sent once. */
  lemma CorrectedHi()
    ensures BuildMessages("", [], 10, "hi") == [OutMessage("user", "hi")]
  {
    assert ContextMessages([], 10) == [];
    assert ToOutAll([]) == [];
  }

  // ---------------------------------------------------------------------------
  // The streamed reply

  /** The fields of one parsed NDJSON record that the client reads. A missing
      or empty `message.content` is the empty string; a missing `eval_count`
      or `prompt_eval_count` is 0 (both are falsy to the client). */
  datatype StreamRecord = StreamRecord(content: string, done: bool, evalCount: nat, promptEvalCount: nat)

  /** A non-blank line of the stream: its record, or None when `JSON.parse`
      fails; `elapsed` is the time since the request started when it arrived. */
  datatype StreamLine = StreamLine(record: Option<StreamRecord>, elapsed: nat)

  /** What the client knows when the stream ends. */
  datatype StreamSummary = StreamSummary(
    text: string, responseTokens: nat, promptTokens: nat, firstChunkTime: Option<nat>)

  function ContentOf(l: StreamLine): string {
    if l.record.Some? then l.record.value.content else []
  }

  /** `fullResponse`: the contents of all records, in order. */
  function ResponseText(lines: seq<StreamLine>): string {
    if lines == [] then [] else ResponseText(lines[..|lines| - 1]) + ContentOf(lines[|lines| - 1])
  }

  /** `responseTokens`: the last non-zero `eval_count` of a done record. */
  function LastEvalCount(lines: seq<StreamLine>): nat {
    if lines == [] then 0
    else
      var l := lines[|lines| - 1];
      if l.record.Some? && l.record.value.done && l.record.value.evalCount > 0
      then l.record.value.evalCount
      else LastEvalCount(lines[..|lines| - 1])
  }

  /** `promptTokens`: the last non-zero `prompt_eval_count` of a done record. */
  function LastPromptEvalCount(lines: seq<StreamLine>): nat {
    if lines == [] then 0
    else
      var l := lines[|lines| - 1];
      if l.record.Some? && l.record.value.done && l.record.value.promptEvalCount > 0
      then l.record.value.promptEvalCount
      else LastPromptEvalCount(lines[..|lines| - 1])
  }

  /** `firstChunkTime`: the arrival time of the first record with content. */
  function FirstContentTime(lines: seq<StreamLine>): Option<nat> {
    if lines == [] then None
    else
      var f := FirstContentTime(lines[..|lines| - 1]);
      if f.Some? then f
      else if ContentOf(lines[|lines| - 1]) != [] then Some(lines[|lines| - 1].elapsed)
      else None
  }

  function Summary(lines: seq<StreamLine>): StreamSummary {
    StreamSummary(ResponseText(lines), LastEvalCount(lines), LastPromptEvalCount(lines), FirstContentTime(lines))
  }

  /** The read loop of `handleSendMessage` over the lines of the stream. */
  method FoldStream(lines: seq<StreamLine>) returns (r: StreamSummary)
    ensures r == Summary(lines)
  {
    var fullResponse: string := [];
    var responseTokens: nat := 0;
    var promptTokens: nat := 0;
    var firstChunkTime: Option<nat> := None;
    var i := 0;
    while i < |lines|
      invariant 0 <= i <= |lines|
      invariant fullResponse == ResponseText(lines[..i])
      invariant responseTokens == LastEvalCount(lines[..i])
      invariant promptTokens == LastPromptEvalCount(lines[..i])
      invariant firstChunkTime == FirstContentTime(lines[..i])
    {
      assert lines[..i + 1][..i] == lines[..i];
      var line := lines[i];
      match line.record {
        case None =>
        case Some(data) =>
          if data.content != [] {
            fullResponse := fullResponse + data.content;
            if firstChunkTime.None? {
              firstChunkTime := Some(line.elapsed);
            }
          }
          if data.done {
            if data.evalCount > 0 {
              responseTokens := data.evalCount;
            }
            if data.promptEvalCount > 0 {
              promptTokens := data.promptEvalCount;
            }
          }
      }
      i := i + 1;
    }
    assert lines[..i] == lines;
    r := StreamSummary(fullResponse, responseTokens, promptTokens, firstChunkTime);
  }

  /** The reply text of two consecutive parts of a stream is the
      concatenation of their texts. */
  lemma {:induction false} ResponseTextAppend(a: seq<StreamLine>, b: seq<StreamLine>)
    ensures ResponseText(a + b) == ResponseText(a) + ResponseText(b)
  {
    if b != [] {
      assert (a + b)[..|a + b| - 1] == a + b[..|b| - 1];
      assert (a + b)[|a + b| - 1] == b[|b| - 1];
      ResponseTextAppend(a, b[..|b| - 1]);
      calc {
        ResponseText(a + b);
        ResponseText(a + b[..|b| - 1]) + ContentOf(b[|b| - 1]);
        ResponseText(a) + ResponseText(b[..|b| - 1]) + ContentOf(b[|b| - 1]);
        ResponseText(a) + (ResponseText(b[..|b| - 1]) + ContentOf(b[|b| - 1]));
      }
    } else {
      assert a + b == a;
    }
  }

  /** A first-content time exists exactly when some text arrived, and it is
      the arrival time of the first line that carried content. */
  lemma {:induction false} FirstContentTimeIffText(lines: seq<StreamLine>)
    ensures FirstContentTime(lines).Some? <==> ResponseText(lines) != []
    ensures FirstContentTime(lines).Some? ==>
              exists k :: 0 <= k < |lines| && ContentOf(lines[k]) != [] &&
                          FirstContentTime(lines) == Some(lines[k].elapsed) &&
                          forall j :: 0 <= j < k ==> ContentOf(lines[j]) == []
  {
    if lines != [] {
      var init := lines[..|lines| - 1];
      FirstContentTimeIffText(init);
      if FirstContentTime(init).None? && ContentOf(lines[|lines| - 1]) != [] {
        var k := |lines| - 1;
        assert ResponseText(init) == [];
        forall j | 0 <= j < k
          ensures ContentOf(lines[j]) == []
        {
          NoTextNoContent(init, j);
          assert init[j] == lines[j];
        }
      } else if FirstContentTime(init).Some? {
        var k :| 0 <= k < |init| && ContentOf(init[k]) != [] &&
                 FirstContentTime(init) == Some(init[k].elapsed) &&
                 forall j :: 0 <= j < k ==> ContentOf(init[j]) == [];
        assert init[k] == lines[k];
        assert forall j :: 0 <= j < k ==> init[j] == lines[j];
      }
    }
  }

  /** A stream without text has no line with content. */
  lemma {:induction false} NoTextNoContent(lines: seq<StreamLine>, j: nat)
    requires ResponseText(lines) == [] && j < |lines|
    ensures ContentOf(lines[j]) == []
  {
    var init := lines[..|lines| - 1];
    if j < |lines| - 1 {
      NoTextNoContent(init, j);
      assert init[j] == lines[j];
    }
  }

  /** A line that does not parse changes nothing: the client logs it and
      moves on. */
  lemma {:induction false} MalformedLineIgnored(a: seq<StreamLine>, bad: StreamLine, b: seq<StreamLine>)
    requires bad.record.None?
    ensures Summary(a + [bad] + b) == Summary(a + b)
  {
    if b == [] {
      assert (a + [bad] + b)[..|a + [bad] + b| - 1] == a;
      assert a + b == a;
    } else {
      MalformedLineIgnored(a, bad, b[..|b| - 1]);
      assert (a + [bad] + b)[..|a + [bad] + b| - 1] == a + [bad] + b[..|b| - 1];
      assert (a + b)[..|a + b| - 1] == a + b[..|b| - 1];
      assert (a + [bad] + b)[|a + [bad] + b| - 1] == b[|b| - 1];
      assert (a + b)[|a + b| - 1] == b[|b| - 1];
    }
  }

  /** The record stream `Hel`, `lo`, then done with 5 reply and 12 prompt
      tokens gives the reply `Hello` with 5 tokens, 12 prompt tokens, and
      the first token at the arrival of the first record. */
  lemma HelloStream()
    ensures Summary([StreamLine(Some(StreamRecord("Hel", false, 0, 0)), 7),
                     StreamLine(None, 8),
                     StreamLine(Some(StreamRecord("lo", false, 0, 0)), 9),
                     StreamLine(Some(StreamRecord("", true, 5, 12)), 11)])
            == StreamSummary("Hello", 5, 12, Some(7))
  {
    var l0 := StreamLine(Some(StreamRecord("Hel", false, 0, 0)), 7);
    var l1 := StreamLine(None, 8);
    var l2 := StreamLine(Some(StreamRecord("lo", false, 0, 0)), 9);
    var l3 := StreamLine(Some(StreamRecord("", true, 5, 12)), 11);
    var s := [l0, l1, l2, l3];
    assert s[..3] == [l0, l1, l2] && [l0, l1, l2][..2] == [l0, l1] && [l0, l1][..1] == [l0];
    assert [l0][..0] == [];
    assert ResponseText([l0]) == "Hel" && FirstContentTime([l0]) == Some(7);
    assert ResponseText([l0, l1]) == "Hel" && FirstContentTime([l0, l1]) == Some(7);
    assert ResponseText([l0, l1, l2]) == "Hel" + "lo" && FirstContentTime([l0, l1, l2]) == Some(7);
    assert ResponseText(s) == "Hello" && FirstContentTime(s) == Some(7);
  }

  // ---------------------------------------------------------------------------
  // One send

  /** The connection dot: unknown until the first check. */
  datatype Connection = Unknown | Connected | Disconnected

  datatype Failure = NetworkFailure | HttpFailure(status: nat) | OtherFailure

  /** How the request ended: a stream that was read to the end, or an error
      thrown by `fetch`, by a non-OK status, or while reading. */
  datatype Response = Streamed(lines: seq<StreamLine>) | Failed(failure: Failure)

  /** The notices `handleSendMessage` shows instead of sending. */
  datatype Refusal = NoInput | NotConfigured | ServerUnreachable

  /** A refusal, or the request that went out together with whether the
      title generator was started after the user message and after the reply. */
  datatype SendResult =
    | Refused(reason: Refusal)
    | Sent(request: seq<OutMessage>, titleAfterUser: bool, titleAfterReply: bool)

  /** `!config || !selectedModel`: the send needs an active config and a
      model name that is not empty. */
  predicate Ready(config: Option<Configs.BackendConfig>, selectedModel: Option<string>) {
    config.Some? && selectedModel.Some? && selectedModel.value != []
  }

  /** The checks before anything is sent, in the code's order: blank input is
      ignored, a missing config or model gets a notice, and a server the
      status dot shows as unreachable is not contacted. */
  function PreFlight(input: string, config: Option<Configs.BackendConfig>, selectedModel: Option<string>,
                     status: Connection): (r: Option<Refusal>)
    ensures r == Some(NoInput) <==> IsBlank(input)
    ensures r == Some(NotConfigured) <==> !IsBlank(input) && !Ready(config, selectedModel)
    ensures r == Some(ServerUnreachable) <==> !IsBlank(input) && Ready(config, selectedModel) && status == Disconnected
    ensures r == None <==> !IsBlank(input) && Ready(config, selectedModel) && status != Disconnected
  {
    if IsBlank(input) then Some(NoInput)
    else if !Ready(config, selectedModel) then Some(NotConfigured)
    else if status == Disconnected then Some(ServerUnreachable)
    else None
  }

  /** The status after a failure: a network error marks the server unreachable. */
  function StatusAfter(status: Connection, response: Response): (r: Connection)
    ensures response.Failed? && response.failure == NetworkFailure ==> r == Disconnected
    ensures !(response.Failed? && response.failure == NetworkFailure) ==> r == status
  {
    if response.Failed? && response.failure == NetworkFailure then Disconnected else status
  }

  /** The messages a send adds to the current conversation: the user message
      (with the prompt token count when one was reported), then the reply
      when the stream produced text. A failed request adds the user message
      only. */
  function SentMessages(text: string, now: nat, doneAt: nat, response: Response): seq<Message> {
    var user := MakeMessage(User, text, now, None, None);
    match response
    case Failed(_) => [user]
    case Streamed(lines) =>
      var s := Summary(lines);
      var u := if s.promptTokens > 0 then user.(tokens := Some(s.promptTokens)) else user;
      [u] + (if s.text != [] then [MakeMessage(Assistant, s.text, doneAt, s.firstChunkTime, Some(s.responseTokens))] else [])
  }

  /** A reply is stored exactly when the stream produced text, and then it
      carries the arrival time of its first content, so no reply is ever
      stored after a failure or without a first-token time. */
  lemma SentMessagesSpec(text: string, now: nat, doneAt: nat, response: Response)
    ensures var ms := SentMessages(text, now, doneAt, response);
            && 1 <= |ms| <= 2
            && ms[0].role == User && ms[0].content == text && ms[0].timestamp == now
            && (|ms| == 2 <==> response.Streamed? && ResponseText(response.lines) != [])
            && (|ms| == 2 ==> ms[1].role == Assistant && ms[1].content == ResponseText(response.lines) &&
                              ms[1].duration.Some?)
            && (ms[0].tokens.Some? <==> response.Streamed? && LastPromptEvalCount(response.lines) > 0)
  {
    if response.Streamed? {
      FirstContentTimeIffText(response.lines);
    }
  }

  /** The state after a stream read to the end: the prompt tokens are
      back-filled, then a non-empty reply is added. */
  function ReplyOutcome(st: StoreState, summary: StreamSummary, doneAt: nat, newId: string, model: string): Added {
    var filled := BackfillOutcome(st, summary.promptTokens);
    if summary.text != [] then
      AddMessageOutcome(filled, MakeMessage(Assistant, summary.text, doneAt, summary.firstChunkTime,
                                            Some(summary.responseTokens)), newId, Some(model))
    else Added(filled, false)
  }

  /** The store after one send, and the two title decisions it made. */
  datatype Exchanged = Exchanged(state: StoreState, titleAfterUser: bool, titleAfterReply: bool)

  /** The state after a send that went out: the user message is added, then,
      when the stream was read to the end, the reply is stored. */
  function ExchangeOutcome(st: StoreState, text: string, now: nat, doneAt: nat, newId: string,
                           model: string, response: Response): Exchanged {
    var u := AddMessageOutcome(st, MakeMessage(User, text, now, None, None), newId, Some(model));
    match response
    case Failed(_) => Exchanged(u.state, u.fireTitle, false)
    case Streamed(lines) =>
      var r := ReplyOutcome(u.state, Summary(lines), doneAt, newId, model);
      Exchanged(r.state, u.fireTitle, r.fireTitle)
  }

  /** Storing a reply keeps the store valid, the current conversation and the
      number of conversations; the last (user) message gets the prompt tokens
      when some were reported, and a non-empty reply follows it. */
  lemma ReplySpec(st: StoreState, user: Message, summary: StreamSummary, doneAt: nat, newId: string, model: string)
    requires ValidStore(st) && st.current.Some? && user.role == User
    requires CurrentOf(st) != [] && CurrentOf(st)[|CurrentOf(st)| - 1] == user
    ensures var r := ReplyOutcome(st, summary, doneAt, newId, model).state;
            var msgs := CurrentOf(st);
            var u := if summary.promptTokens > 0 then user.(tokens := Some(summary.promptTokens)) else user;
            && ValidStore(r) && r.current == st.current && |r.conversations| == |st.conversations|
            && CurrentOf(r) == msgs[..|msgs| - 1] + [u] +
                 (if summary.text != [] then [MakeMessage(Assistant, summary.text, doneAt, summary.firstChunkTime, Some(summary.responseTokens))] else [])
  {
    var msgs := CurrentOf(st);
    var u := if summary.promptTokens > 0 then user.(tokens := Some(summary.promptTokens)) else user;
    BackfillSpec(st, summary.promptTokens);
    BackfillTouchesOnlyCurrent(st, summary.promptTokens);
    var filled := BackfillOutcome(st, summary.promptTokens);
    assert CurrentOf(filled) == msgs[..|msgs| - 1] + [u];
    if summary.text != [] {
      AddMessageSpec(filled, MakeMessage(Assistant, summary.text, doneAt, summary.firstChunkTime,
                                         Some(summary.responseTokens)), newId, Some(model));
    }
  }

  /** A send that went out keeps the store valid, makes a conversation current
      (creating one only when there was none), and adds exactly the messages
      `SentMessages` names to it. */
  lemma ExchangeSpec(st: StoreState, text: string, now: nat, doneAt: nat, newId: string,
                     model: string, response: Response)
    requires ValidStore(st)
    requires st.current.None? ==> IndexOfId(st.conversations, newId) == None
    requires st.current.None? ==> forall k :: 0 <= k < |st.conversations| ==> st.conversations[k].timestamp <= now
    ensures var r := ExchangeOutcome(st, text, now, doneAt, newId, model, response).state;
            && ValidStore(r)
            && r.current == (if st.current.None? then Some(newId) else st.current)
            && |r.conversations| == |st.conversations| + (if st.current.None? then 1 else 0)
            && CurrentOf(r) == CurrentOf(st) + SentMessages(text, now, doneAt, response)
  {
    var user := MakeMessage(User, text, now, None, None);
    AddMessageSpec(st, user, newId, Some(model));
    if response.Streamed? {
      StreamedExchange(AddMessageOutcome(st, user, newId, Some(model)).state, CurrentOf(st), user,
                       Summary(response.lines), doneAt, newId, model);
    }
  }

  /** The reply stage of a send, once the user message follows `before`. */
  lemma StreamedExchange(u: StoreState, before: seq<Message>, user: Message, summary: StreamSummary,
                         doneAt: nat, newId: string, model: string)
    requires ValidStore(u) && u.current.Some? && user.role == User
    requires CurrentOf(u) == before + [user]
    ensures var r := ReplyOutcome(u, summary, doneAt, newId, model).state;
            var up := if summary.promptTokens > 0 then user.(tokens := Some(summary.promptTokens)) else user;
            && ValidStore(r) && r.current == u.current && |r.conversations| == |u.conversations|
            && CurrentOf(r) == before + ([up] +
                 (if summary.text != [] then [MakeMessage(Assistant, summary.text, doneAt, summary.firstChunkTime, Some(summary.responseTokens))] else []))
  {
    ReplySpec(u, user, summary, doneAt, newId, model);
    assert (before + [user])[..|before + [user]| - 1] == before;
  }

  /** The end of a stream that was read to the end: its prompt tokens are
      back-filled into the user message just stored, and a non-empty reply is
      stored with its first-token time and token count. */
  method StoreReply(store: ConversationStore, summary: StreamSummary, doneAt: nat,
                    newId: string, model: string) returns (fireTitle: bool)
    requires store.Valid() && store.current.Some?
    modifies store
    ensures store.Valid() && store.current == old(store.current)
    ensures Added(store.State(), fireTitle) == ReplyOutcome(old(store.State()), summary, doneAt, newId, model)
  {
    store.BackfillPromptTokens(summary.promptTokens);
    if summary.text != [] {
      fireTitle := store.AddMessageToConversation(Assistant, summary.text, summary.firstChunkTime,
                                                  Some(summary.responseTokens), doneAt, newId, Some(model));
    } else {
      fireTitle := false;
    }
  }

  /** The part of `handleSendMessage` after the request is built: the user
      message is stored, then, when the stream was read to the end, the reply
      is folded and stored. */
  method RecordExchange(store: ConversationStore, text: string, now: nat, doneAt: nat, newId: string,
                        model: string, response: Response)
    returns (titleAfterUser: bool, titleAfterReply: bool)
    requires store.Valid()
    requires store.current.None? ==> IndexOfId(store.conversations, newId) == None
    requires store.current.None? ==>
               forall k :: 0 <= k < |store.conversations| ==> store.conversations[k].timestamp <= now
    modifies store
    ensures store.Valid() && store.current.Some?
    ensures Exchanged(store.State(), titleAfterUser, titleAfterReply) ==
              ExchangeOutcome(old(store.State()), text, now, doneAt, newId, model, response)
  {
    titleAfterUser := store.AddMessageToConversation(User, text, None, None, now, newId, Some(model));
    titleAfterReply := false;
    if response.Streamed? {
      var summary := FoldStream(response.lines);
      titleAfterReply := StoreReply(store, summary, doneAt, newId, model);
    }
  }

  /** `loadConversation`: an unknown id changes nothing; otherwise that
      conversation becomes current and its model becomes the selected one.
      The list itself is not touched. */
  method LoadConversation(store: ConversationStore, configs: Configs.ConfigRegistry, id: string)
    returns (found: bool)
    requires store.Valid()
    modifies store, configs
    ensures store.Valid() && store.conversations == old(store.conversations)
    ensures found <==> IndexOfId(store.conversations, id).Some?
    ensures found ==> store.current == Some(id) &&
                      configs.selectedModel == store.conversations[IndexOfId(store.conversations, id).value].model &&
                      configs.previousModel == configs.selectedModel
    ensures !found ==> store.current == old(store.current) && configs.selectedModel == old(configs.selectedModel) &&
                       configs.previousModel == old(configs.previousModel)
    ensures configs.configs == old(configs.configs) && configs.activeId == old(configs.activeId)
    ensures configs.availableModels == old(configs.availableModels)
  {
    var i := IndexOfId(store.conversations, id);
    if i.None? {
      return false;
    }
    store.current := Some(id);
    configs.selectedModel := store.conversations[i.value].model;
    configs.previousModel := configs.selectedModel;
    found := true;
  }

  /** Whether a change of the model selector to `newModel` asks first: there
      is a previous model, it differs, and the current conversation has messages. */
  predicate AsksToSwitch(previousModel: Option<string>, newModel: string, currentMessages: seq<Message>) {
    previousModel.Some? && previousModel.value != [] && previousModel.value != newModel && currentMessages != []
  }

  /** The model selector's change handler. `confirmed` is the answer to the
      question it asks when `AsksToSwitch`; declining changes nothing.
      Otherwise the model is selected and cached on the active backend, and
      after a confirmed switch a new conversation with that model is started. */
  method ChangeModel(store: ConversationStore, configs: Configs.ConfigRegistry, newModel: string,
                     confirmed: bool, newId: string, now: nat) returns (started: bool)
    requires store.Valid() && configs.Valid()
    requires IndexOfId(store.conversations, newId) == None
    requires forall k :: 0 <= k < |store.conversations| ==> store.conversations[k].timestamp <= now
    modifies store, configs
    ensures store.Valid() && configs.Valid()
    ensures var asks := AsksToSwitch(old(configs.previousModel), newModel, old(store.CurrentMessages()));
            && started == (asks && confirmed)
            && (asks && !confirmed ==>
                  configs.configs == old(configs.configs) && configs.selectedModel == old(configs.selectedModel) &&
                  configs.previousModel == old(configs.previousModel))
            && (!asks || confirmed ==>
                  configs.selectedModel == Some(newModel) && configs.previousModel == Some(newModel) &&
                  configs.configs == Configs.WithActiveModel(old(configs.configs), old(configs.activeId), newModel))
            && (started ==> store.State() == Created(old(store.State()), newId, now, Some(newModel)))
            && (!started ==> store.State() == old(store.State()))
    ensures configs.activeId == old(configs.activeId) && configs.availableModels == old(configs.availableModels)
  {
    if AsksToSwitch(configs.previousModel, newModel, store.CurrentMessages()) {
      if !confirmed {
        return false;
      }
      configs.SelectModel(newModel);
      store.CreateNewConversation(newId, now, Some(newModel));
      return true;
    }
    configs.SelectModel(newModel);
    started := false;
  }

  /** `handleSendMessage`. `input` is the text box, `now` the time the user
      message is stored, `doneAt` the time the reply is stored, `newId` the id
      for a conversation created by this send, and `response` what the server
      did. The request is the corrected message list (see
      `BuildMessagesAsWritten` for the one the code builds). */
  method SendMessage(store: ConversationStore, configs: Configs.ConfigRegistry,
                     prompts: Prompts.PromptRegistry, status: Connection, input: string,
                     now: nat, doneAt: nat, newId: string, response: Response)
    returns (result: SendResult, newStatus: Connection)
    requires store.Valid()
    requires store.current.None? ==> IndexOfId(store.conversations, newId) == None
    requires store.current.None? ==>
               forall k :: 0 <= k < |store.conversations| ==> store.conversations[k].timestamp <= now
    modifies store
    ensures store.Valid()
    ensures var refusal := PreFlight(input, configs.ActiveConfig(), configs.selectedModel, status);
            && (refusal.Some? ==> result == Refused(refusal.value))
            && (refusal.None? ==> result.Sent?)
    ensures result.Refused? ==>
              newStatus == status && store.conversations == old(store.conversations) &&
              store.current == old(store.current)
    ensures result.Sent? ==>
              && Ready(configs.ActiveConfig(), configs.selectedModel)
              && result.request == BuildMessages(
                   Prompts.Lookup(prompts.prompts, Prompts.Key(configs.ActiveConfig().value.id, configs.selectedModel.value)),
                   old(store.CurrentMessages()), configs.ActiveConfig().value.contextTurns, Trim(input))
              && newStatus == StatusAfter(status, response)
              && Exchanged(store.State(), result.titleAfterUser, result.titleAfterReply) ==
                   ExchangeOutcome(old(store.State()), Trim(input), now, doneAt, newId, configs.selectedModel.value, response)
              && store.current.Some?
              && |store.conversations| == |old(store.conversations)| + (if old(store.current).None? then 1 else 0)
              && store.CurrentMessages() == old(store.CurrentMessages()) + SentMessages(Trim(input), now, doneAt, response)
  {
    var config := configs.ActiveConfig();
    var refusal := PreFlight(input, config, configs.selectedModel, status);
    if refusal.Some? {
      return Refused(refusal.value), status;
    }
    var message := Trim(input);
    var model := configs.selectedModel.value;
    var systemPrompt := Prompts.Lookup(prompts.prompts, Prompts.Key(config.value.id, model));
    var request := BuildMessages(systemPrompt, store.CurrentMessages(), config.value.contextTurns, message);
    ghost var before := store.State();
    var titleAfterUser, titleAfterReply := RecordExchange(store, message, now, doneAt, newId, model, response);
    ExchangeSpec(before, message, now, doneAt, newId, model, response);
    result := Sent(request, titleAfterUser, titleAfterReply);
    newStatus := StatusAfter(status, response);
  }
}
