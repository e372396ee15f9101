/**
 * The thread demo's in-memory chat history (`CustomeChatHistoryProvider`):
 * it hands its stored messages to each agent run, appends the run's
 * messages when the run succeeds, and serializes only the thread's key.
 */
module ChatHistory {
  import opened Wrappers

  /** A chat message; only its identity matters here. */
  datatype Message = Message(role: string, text: string)

  /** The JSON element the provider is restored from and serialized to. */
  datatype JsonElement = JString(value: string) | JNull | JOther

  /** The provider's state: the stored messages and the nullable thread key. */
  datatype Provider = Provider(messages: seq<Message>, threadDbKey: Option<string>)

  /** What a finished agent run reports back. */
  datatype InvokedContext = InvokedContext(
    requestMessages: seq<Message>,
    responseMessages: Option<seq<Message>>,
    invokeException: Option<string>)

  /** The constructor: the key comes back only from a JSON string; the messages start empty. */
  function Create(serialized: JsonElement): (p: Provider)
    ensures p.messages == []
    ensures p.threadDbKey.Some? <==> serialized.JString?
    ensures serialized.JString? ==> p.threadDbKey == Some(serialized.value)
  {
    Provider([], if serialized.JString? then Some(serialized.value) else None)
  }

  /** `InvokingCoreAsync`: the stored history, in order. */
  function Invoking(p: Provider): seq<Message> {
    p.messages
  }

  /**
   * `InvokedCoreAsync`, as written: a failed run changes nothing; otherwise
   * the key is set to `freshKey` when still null, and the request messages
   * are appended twice, then the response messages.
   */
  function Invoked(p: Provider, ctx: InvokedContext, freshKey: string): (r: Provider)
    ensures ctx.invokeException.Some? ==> r == p
    ensures ctx.invokeException.None? ==>
      && r.threadDbKey == Some(p.threadDbKey.GetOr(freshKey))
      && r.messages == p.messages + ctx.requestMessages + ctx.requestMessages + ctx.responseMessages.GetOr([])
  {
    if ctx.invokeException.Some? then p
    else
      var added := ctx.requestMessages + ctx.requestMessages + ctx.responseMessages.GetOr([]);
      Provider(p.messages + added, Some(p.threadDbKey.GetOr(freshKey)))
  }

  /** `Serialize`: the key as a JSON string, or JSON null. */
  function Serialize(p: Provider): (e: JsonElement)
    ensures e.JString? <==> p.threadDbKey.Some?
    ensures e.JString? ==> e.value == p.threadDbKey.value
  {
    if p.threadDbKey.Some? then JString(p.threadDbKey.value) else JNull
  }

  /** Restoring a serialized provider keeps its key and nothing else: the messages are gone. */
  lemma SerializeRoundTrip(p: Provider)
    ensures Create(Serialize(p)).threadDbKey == p.threadDbKey
    ensures Create(Serialize(p)).messages == []
  {
  }

  /** Once a thread has a key, runs never change it. */
  lemma KeyIsStable(p: Provider, ctx: InvokedContext, freshKey: string)
    requires p.threadDbKey.Some?
    ensures Invoked(p, ctx, freshKey).threadDbKey == p.threadDbKey
  {
  }

  /** Runs only ever add messages behind the ones already stored. */
  lemma HistoryGrows(p: Provider, ctx: InvokedContext, freshKey: string)
    ensures Invoking(p) <= Invoking(Invoked(p, ctx, freshKey))
  {
  }

  /** A successful turn with one request and one reply stores the request twice. */
  lemma RequestStoredTwice(q: Message, a: Message, freshKey: string)
    ensures Invoking(Invoked(Create(JNull), InvokedContext([q], Some([a]), None), freshKey)) == [q, q, a]
  {
  }

  /** The intended `InvokedCoreAsync`: the request messages once, then the response messages. */
  function InvokedOnce(p: Provider, ctx: InvokedContext, freshKey: string): (r: Provider)
    ensures ctx.invokeException.Some? ==> r == p
    ensures ctx.invokeException.None? ==> r.threadDbKey == Invoked(p, ctx, freshKey).threadDbKey
  {
    if ctx.invokeException.Some? then p
    else Provider(p.messages + ctx.requestMessages + ctx.responseMessages.GetOr([]), Some(p.threadDbKey.GetOr(freshKey)))
  }

  /** The conversation of a sequence of runs: each successful run's request, then its reply. */
  function Transcript(runs: seq<InvokedContext>): seq<Message> {
    if runs == [] then []
    else
      var c := runs[0];
      (if c.invokeException.Some? then [] else c.requestMessages + c.responseMessages.GetOr([]))
        + Transcript(runs[1..])
  }

  /** A provider driven by a sequence of runs; `freshKey` is the key drawn if it still has none. */
  function RunAll(p: Provider, runs: seq<InvokedContext>, freshKey: string): Provider
    decreases |runs|
  {
    if runs == [] then p else RunAll(InvokedOnce(p, runs[0], freshKey), runs[1..], freshKey)
  }

  /** With the intended append, the stored history is exactly the conversation, each message once, in order. */
  lemma {:induction false} HistoryIsTranscript(p: Provider, runs: seq<InvokedContext>, freshKey: string)
    ensures Invoking(RunAll(p, runs, freshKey)) == Invoking(p) + Transcript(runs)
    decreases |runs|
  {
    if runs != [] {
      var p1 := InvokedOnce(p, runs[0], freshKey);
      HistoryIsTranscript(p1, runs[1..], freshKey);
    }
  }

  /**
   * With the intended append, what a thread restored from storage hands its
   * next run is exactly the conversation since the restore: the messages
   * never survive serialization.
   */
  lemma InvokingAfterRestore(serialized: JsonElement, runs: seq<InvokedContext>, freshKey: string)
    ensures Invoking(RunAll(Create(serialized), runs, freshKey)) == Transcript(runs)
  {
    HistoryIsTranscript(Create(serialized), runs, freshKey);
  }

  /** The intended append stores a one-request, one-reply turn as exactly that turn. */
  lemma SingleTurnStoredOnce(q: Message, a: Message, freshKey: string)
    ensures Invoking(InvokedOnce(Create(JNull), InvokedContext([q], Some([a]), None), freshKey)) == [q, a]
  {
  }
}
