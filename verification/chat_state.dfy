/**
 * The chat state of the web client (`useChat`): the message list and the
 * pure updaters applied to it for each event of an agent run, plus the
 * running flag and the error text. Message ids drawn from
 * `crypto.randomUUID()` are inputs.
 */
module ChatState {
  import opened Wrappers
  import opened Text

  datatype Role = User | Assistant

  /** `ChatToolCall`. */
  datatype ChatToolCall = ChatToolCall(id: string, name: string, args: string, isComplete: bool)

  /** `ChatMessage`. */
  datatype ChatMessage = ChatMessage(
    id: string,
    role: Role,
    content: string,
    isStreaming: bool,
    toolCalls: seq<ChatToolCall>,
    isError: bool)

  const UnknownError: string := "An unknown error occurred"

  // ---------------------------------------------------------------------
  // The last assistant message
  // ---------------------------------------------------------------------

  /** The index the backwards search of every in-place updater stops at. */
  function LastAssistant(ms: seq<ChatMessage>): (r: Option<nat>)
    ensures r.Some? ==> r.value < |ms| && ms[r.value].role == Assistant
    ensures r.Some? ==> forall j :: r.value < j < |ms| ==> ms[j].role != Assistant
    ensures r.None? ==> forall j :: 0 <= j < |ms| ==> ms[j].role != Assistant
  {
    if ms == [] then None
    else if ms[|ms| - 1].role == Assistant then Some(|ms| - 1)
    else LastAssistant(ms[..|ms| - 1])
  }

  /** The last assistant message replaced by `f` of itself; nothing changes when there is none. */
  function UpdateLastAssistant(ms: seq<ChatMessage>, f: ChatMessage -> ChatMessage): (r: seq<ChatMessage>)
    ensures |r| == |ms|
    ensures LastAssistant(ms).None? ==> r == ms
    ensures LastAssistant(ms).Some? ==>
      r[LastAssistant(ms).value] == f(ms[LastAssistant(ms).value]) &&
      forall j :: 0 <= j < |ms| && j != LastAssistant(ms).value ==> r[j] == ms[j]
  {
    match LastAssistant(ms)
    case None => ms
    case Some(i) => ms[i := f(ms[i])]
  }

  /** The tool calls with id `id` replaced by `f` of themselves. */
  function MapToolCalls(tcs: seq<ChatToolCall>, id: string, f: ChatToolCall -> ChatToolCall): (r: seq<ChatToolCall>)
    ensures |r| == |tcs|
    ensures forall k :: 0 <= k < |tcs| && tcs[k].id == id ==> r[k] == f(tcs[k])
    ensures forall k :: 0 <= k < |tcs| && tcs[k].id != id ==> r[k] == tcs[k]
  {
    seq(|tcs|, k requires 0 <= k < |tcs| => if tcs[k].id == id then f(tcs[k]) else tcs[k])
  }

  // ---------------------------------------------------------------------
  // Run events
  // ---------------------------------------------------------------------

  /** The events of an agent run that update the message list. */
  datatype Event =
    | TextMessageStart(messageId: string)
    | TextMessageContent(delta: string)
    | TextMessageEnd
    | ToolCallStart(toolCallId: string, toolCallName: string)
    | ToolCallArgs(toolCallId: string, argsDelta: string)
    | ToolCallEnd(toolCallId: string)
    | RunError(message: Option<string>, errorId: string)

  /** Events that update the last assistant message in place. */
  predicate InPlace(e: Event) {
    !e.TextMessageStart? && !e.RunError?
  }

  /** The change an in-place event makes to the last assistant message. */
  function Touch(e: Event, m: ChatMessage): (r: ChatMessage)
    requires InPlace(e)
    ensures r.id == m.id && r.role == m.role
  {
    match e
    case TextMessageContent(delta) => m.(content := m.content + delta)
    case TextMessageEnd => m.(isStreaming := false)
    case ToolCallStart(id, name) => m.(toolCalls := m.toolCalls + [ChatToolCall(id, name, "", false)])
    case ToolCallArgs(id, delta) => m.(toolCalls := MapToolCalls(m.toolCalls, id, (tc: ChatToolCall) => tc.(args := tc.args + delta)))
    case ToolCallEnd(id) => m.(toolCalls := MapToolCalls(m.toolCalls, id, (tc: ChatToolCall) => tc.(isComplete := true)))
  }

  /** The message a run error appends; `message ?? default` is its text. */
  function ErrorMessage(message: Option<string>, errorId: string): ChatMessage {
    ChatMessage(errorId, Assistant, message.GetOr(UnknownError), false, [], true)
  }

  /** The `setMessages` updater of each event. */
  function Apply(ms: seq<ChatMessage>, e: Event): (r: seq<ChatMessage>)
    ensures e.TextMessageStart? ==> r == ms + [ChatMessage(e.messageId, Assistant, "", true, [], false)]
    ensures e.RunError? ==> r == ms + [ErrorMessage(e.message, e.errorId)]
    ensures InPlace(e) ==> |r| == |ms|
  {
    match e
    case TextMessageStart(id) => ms + [ChatMessage(id, Assistant, "", true, [], false)]
    case RunError(message, errorId) => ms + [ErrorMessage(message, errorId)]
    case _ => UpdateLastAssistant(ms, (m: ChatMessage) => Touch(e, m))
  }

  /** Same length, and every message keeps its id and role. */
  predicate SameShape(a: seq<ChatMessage>, b: seq<ChatMessage>) {
    |a| == |b| && forall i :: 0 <= i < |a| ==> a[i].id == b[i].id && a[i].role == b[i].role
  }

  /**
   * An in-place event changes only the last assistant message, keeps
   * every id and role, and with no assistant message changes nothing.
   */
  lemma InPlaceChangesOnlyLastAssistant(ms: seq<ChatMessage>, e: Event)
    requires InPlace(e)
    ensures SameShape(ms, Apply(ms, e))
    ensures LastAssistant(ms).None? ==> Apply(ms, e) == ms
    ensures LastAssistant(ms).Some? ==>
      forall j :: 0 <= j < |ms| && j != LastAssistant(ms).value ==> Apply(ms, e)[j] == ms[j]
  {
    var r := Apply(ms, e);
    assert r == UpdateLastAssistant(ms, (m: ChatMessage) => Touch(e, m));
    match LastAssistant(ms)
    case None =>
    case Some(i) =>
      assert r[i] == Touch(e, ms[i]);
  }

  /** A content delta is appended to the last assistant message's text, and nothing else in it changes. */
  lemma ContentDeltaAppends(ms: seq<ChatMessage>, delta: string)
    requires LastAssistant(ms).Some?
    ensures var i := LastAssistant(ms).value;
      var before, after := ms[i], Apply(ms, TextMessageContent(delta))[i];
      && after.content == before.content + delta
      && after.id == before.id && after.role == before.role && after.isStreaming == before.isStreaming
      && after.toolCalls == before.toolCalls && after.isError == before.isError
  {
  }

  /** The end of a text message stops the last assistant message streaming and changes nothing else in it. */
  lemma TextMessageEndStopsStreaming(ms: seq<ChatMessage>)
    requires LastAssistant(ms).Some?
    ensures var i := LastAssistant(ms).value;
      var before, after := ms[i], Apply(ms, TextMessageEnd)[i];
      && !after.isStreaming
      && after.id == before.id && after.role == before.role && after.content == before.content
      && after.toolCalls == before.toolCalls && after.isError == before.isError
  {
  }

  /**
   * A tool-call start appends one empty, incomplete call with the event's
   * id and name to the last assistant message, after the calls it had.
   */
  lemma ToolCallStartAppendsCall(ms: seq<ChatMessage>, id: string, name: string)
    requires LastAssistant(ms).Some?
    ensures var i := LastAssistant(ms).value;
      var before, after := ms[i], Apply(ms, ToolCallStart(id, name))[i];
      && after.toolCalls == before.toolCalls + [ChatToolCall(id, name, "", false)]
      && after.id == before.id && after.role == before.role && after.content == before.content
      && after.isStreaming == before.isStreaming && after.isError == before.isError
  {
  }

  /**
   * Argument deltas and tool ends touch only the calls with the event's
   * id; the rest of the message is unchanged.
   */
  lemma ToolCallEventsTouchOnlyTheirCall(ms: seq<ChatMessage>, e: Event)
    requires e.ToolCallArgs? || e.ToolCallEnd?
    requires LastAssistant(ms).Some?
    ensures var i := LastAssistant(ms).value;
      var before, after := ms[i], Apply(ms, e)[i];
      && after.id == before.id && after.role == before.role && after.content == before.content
      && after.isStreaming == before.isStreaming && after.isError == before.isError
    ensures
      var i := LastAssistant(ms).value;
      var before, after := ms[i].toolCalls, Apply(ms, e)[i].toolCalls;
      var id := e.toolCallId;
      && |after| == |before|
      && (forall k :: 0 <= k < |before| && before[k].id != id ==> after[k] == before[k])
      && (forall k :: 0 <= k < |before| && before[k].id == id ==>
            after[k].id == id && after[k].name == before[k].name &&
            (e.ToolCallArgs? ==> after[k].args == before[k].args + e.argsDelta && after[k].isComplete == before[k].isComplete) &&
            (e.ToolCallEnd? ==> after[k].args == before[k].args && after[k].isComplete))
  {
  }

  // ---------------------------------------------------------------------
  // Streaming a message
  // ---------------------------------------------------------------------

  function ApplyAll(ms: seq<ChatMessage>, es: seq<Event>): seq<ChatMessage>
    decreases |es|
  {
    if es == [] then ms else ApplyAll(Apply(ms, es[0]), es[1..])
  }

  function Deltas(ds: seq<string>): (es: seq<Event>)
    ensures |es| == |ds|
    ensures forall k :: 0 <= k < |ds| ==> es[k] == TextMessageContent(ds[k])
  {
    seq(|ds|, k requires 0 <= k < |ds| => TextMessageContent(ds[k]))
  }

  function Concat(ds: seq<string>): string {
    if ds == [] then "" else ds[0] + Concat(ds[1..])
  }

  /** One delta when the last message is an assistant's. */
  lemma DeltaToLast(ms: seq<ChatMessage>, d: string)
    requires ms != [] && ms[|ms| - 1].role == Assistant
    ensures
      var last := ms[|ms| - 1];
      Apply(ms, TextMessageContent(d)) == ms[..|ms| - 1] + [last.(content := last.content + d)]
  {
    var r := Apply(ms, TextMessageContent(d));
    assert LastAssistant(ms) == Some(|ms| - 1);
    assert r == ms[|ms| - 1 := Touch(TextMessageContent(d), ms[|ms| - 1])];
  }

  /** When the last message is an assistant's, deltas accumulate in it and nothing else changes. */
  lemma {:induction false} DeltasAccumulate(ms: seq<ChatMessage>, ds: seq<string>)
    requires ms != [] && ms[|ms| - 1].role == Assistant
    ensures
      var last := ms[|ms| - 1];
      ApplyAll(ms, Deltas(ds)) == ms[..|ms| - 1] + [last.(content := last.content + Concat(ds))]
    decreases |ds|
  {
    var last := ms[|ms| - 1];
    if ds == [] {
      assert last.(content := last.content + "") == last;
      assert ms == ms[..|ms| - 1] + [last];
    } else {
      var ms1 := Apply(ms, TextMessageContent(ds[0]));
      DeltaToLast(ms, ds[0]);
      assert Deltas(ds)[1..] == Deltas(ds[1..]);
      DeltasAccumulate(ms1, ds[1..]);
      assert ms1[..|ms1| - 1] == ms[..|ms| - 1];
      assert last.content + ds[0] + Concat(ds[1..]) == last.content + Concat(ds);
    }
  }

  /**
   * A started message followed by content deltas holds exactly their
   * concatenation, and the earlier messages are untouched.
   */
  lemma StreamedMessage(ms: seq<ChatMessage>, id: string, ds: seq<string>)
    ensures ApplyAll(ms, [TextMessageStart(id)] + Deltas(ds)) ==
      ms + [ChatMessage(id, Assistant, Concat(ds), true, [], false)]
  {
    var es := [TextMessageStart(id)] + Deltas(ds);
    var ms1 := ms + [ChatMessage(id, Assistant, "", true, [], false)];
    assert es[0] == TextMessageStart(id) && es[1..] == Deltas(ds);
    assert ApplyAll(ms, es) == ApplyAll(ms1, Deltas(ds));
    DeltasAccumulate(ms1, ds);
    assert ms1[..|ms1| - 1] == ms;
    assert "" + Concat(ds) == Concat(ds);
  }

  // ---------------------------------------------------------------------
  // The hook state
  // ---------------------------------------------------------------------

  /** The hook's state: messages, running flag and error text. */
  datatype Chat = Chat(messages: seq<ChatMessage>, isRunning: bool, error: Option<string>)

  const Initial: Chat := Chat([], false, None)

  /**
   * `sendMessage`: input that trims to nothing is ignored; otherwise one
   * user message with the trimmed text is appended, the run starts and
   * the error is cleared.
   */
  function SendMessage(c: Chat, content: string, newId: string): (r: Chat)
    ensures Trim(content, JavaScript) == "" ==> r == c
    ensures Trim(content, JavaScript) != "" ==>
      && r.messages == c.messages + [ChatMessage(newId, User, Trim(content, JavaScript), false, [], false)]
      && r.isRunning && r.error.None?
  {
    var trimmed := Trim(content, JavaScript);
    if trimmed == "" then c
    else Chat(c.messages + [ChatMessage(newId, User, trimmed, false, [], false)], true, None)
  }

  /** Input made only of white space is ignored. */
  lemma BlankInputIgnored(c: Chat, content: string, newId: string)
    requires forall k :: 0 <= k < |content| ==> IsJavaScriptWhiteSpace(content[k])
    ensures SendMessage(c, content, newId) == c
  {
    TrimEmptyIffSpace(content, JavaScript);
  }

  /**
   * A sent message is a finished, non-error user message with no tool
   * calls, whose text is the input with exactly its white space at either
   * end removed: a contiguous piece of the input, everything outside it
   * white space, and no white space at its own ends.
   */
  lemma SentTextIsTrimmed(c: Chat, content: string, newId: string)
    requires Trim(content, JavaScript) != ""
    ensures var m := SendMessage(c, content, newId).messages[|c.messages|];
      var i := TrimOffset(content, SpaceTest(JavaScript));
      && m.id == newId && m.role == User && !m.isStreaming && m.toolCalls == [] && !m.isError
      && i + |m.content| <= |content| && m.content == content[i..i + |m.content|]
      && (forall k :: 0 <= k < i ==> IsJavaScriptWhiteSpace(content[k]))
      && (forall k :: i + |m.content| <= k < |content| ==> IsJavaScriptWhiteSpace(content[k]))
      && !IsJavaScriptWhiteSpace(m.content[0]) && !IsJavaScriptWhiteSpace(m.content[|m.content| - 1])
  {
    TrimWithSpec(content, SpaceTest(JavaScript));
  }

  /** `onRunErrorEvent`: the error is recorded, the run stops, an error message is appended. */
  function OnRunError(c: Chat, message: Option<string>, errorId: string): (r: Chat)
    ensures r.messages == Apply(c.messages, RunError(message, errorId))
    ensures !r.isRunning && r.error == Some(message.GetOr(UnknownError))
    ensures r.messages[|c.messages|].isError && r.messages[|c.messages|].content == r.error.value
  {
    Chat(c.messages + [ErrorMessage(message, errorId)], false, Some(message.GetOr(UnknownError)))
  }

  /** Any other run event only updates the message list. */
  function OnEvent(c: Chat, e: Event): (r: Chat)
    requires !e.RunError?
    ensures r.isRunning == c.isRunning && r.error == c.error
    ensures r.messages == Apply(c.messages, e)
  {
    c.(messages := Apply(c.messages, e))
  }

  /** The run's promise settles: it stops, and a rejection records its message or the default. */
  function OnRunSettled(c: Chat, rejection: Option<Option<string>>): (r: Chat)
    ensures !r.isRunning && r.messages == c.messages
    ensures rejection.None? ==> r.error == c.error
    ensures rejection.Some? ==> r.error == Some(rejection.value.GetOr(UnknownError))
  {
    match rejection
    case None => c.(isRunning := false)
    case Some(m) => c.(isRunning := false, error := Some(m.GetOr(UnknownError)))
  }

  /** `abortRun`. */
  function AbortRun(c: Chat): (r: Chat)
    ensures !r.isRunning && r.messages == c.messages && r.error == c.error
  {
    c.(isRunning := false)
  }

  /** `clearChat`: back to the initial state. */
  function ClearChat(c: Chat): (r: Chat)
    ensures r == Initial
  {
    Chat([], false, None)
  }
}
