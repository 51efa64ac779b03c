/** The conversation state of the `Generator` component
    (src/components/Generator.tsx): the message log, the pending assistant
    text, the `loading` flag, the presence of an abort controller and the
    system-role setting, changed by one method per event handler.

    Every handler is one atomic step.  The network is outside the model:
    a request is issued by returning a `Request`, the response body
    arrives as a sequence of `Read`s (already decoded chunks) given to
    `Pump`, and a failed fetch or read is the call `HandleFailure`. */
module Generator {
  import opened ChatTypes

  // ---------------------------------------------------------------------
  // The first-prompt template
  // ---------------------------------------------------------------------

  /** The text placed before the user's product name in the first prompt. */
  const TemplateHead: string := "你是一个广告投放优化师，基于商品\""

  /** The text placed after the user's product name in the first prompt
      (one literal in the component, written here in four pieces). */
  const TemplateTail: string :=
    "\"，撰写5个新广告文案，" + "每个文案控制在中文长度10个字以内，" + "不要有标点符号，文案内容要有创意，" + "能吸引人点击"

  /** The inverse of `Template`: the product name a templated prompt wraps,
      if the text has the template's shape. */
  function Unwrap(text: string): (name: Option<string>)
    ensures name.Some? ==> TemplateHead + name.value + TemplateTail == text
  {
    var h, t := |TemplateHead|, |TemplateTail|;
    if |text| >= h + t && text[..h] == TemplateHead && text[|text| - t..] == TemplateTail then
      assert text == text[..h] + text[h..|text| - t] + text[|text| - t..];
      Some(text[h..|text| - t])
    else
      None
  }

  /** The prompt stored for the first submission of a conversation: the
      product name wrapped in the fixed request for five short slogans.
      The wrapping loses nothing: `Unwrap` recovers the name. */
  function Template(input: string): (text: string)
    ensures |text| == |TemplateHead| + |input| + |TemplateTail|
    ensures Unwrap(text) == Some(input)
  {
    var text := TemplateHead + input + TemplateTail;
    assert text[..|TemplateHead|] == TemplateHead;
    assert text[|TemplateHead|..|text| - |TemplateTail|] == input;
    assert text[|text| - |TemplateTail|..] == TemplateTail;
    text
  }

  // ---------------------------------------------------------------------
  // Building the outgoing request
  // ---------------------------------------------------------------------

  /** The list sent to the server: the log, with a system message holding
      the system-role setting in front of it when that setting is not empty. */
  function OutgoingList(systemRole: string, log: seq<Message>): (out: seq<Message>)
    ensures |out| == |log| + (if systemRole == "" then 0 else 1)
    ensures out[|out| - |log|..] == log
    ensures systemRole != "" ==> out[0] == Message(System, systemRole)
  {
    if systemRole == "" then log else [Message(System, systemRole)] + log
  }

  /** The text the request signature covers: the content of the last message
      of the outgoing list, or the empty string when the list is empty. */
  function SignedContent(list: seq<Message>): (m: string)
    ensures list != [] ==> m == list[|list| - 1].content
    ensures m == "" <==> list == [] || list[|list| - 1].content == ""
  {
    if |list| > 0 then list[|list| - 1].content else ""
  }

  /** The signature covers the latest logged message; only with an empty log
      does it cover the system-role setting (which may itself be empty). */
  lemma {:induction false} SignedContentOfOutgoing(systemRole: string, log: seq<Message>)
    ensures SignedContent(OutgoingList(systemRole, log))
         == if |log| > 0 then log[|log| - 1].content else systemRole
  {
  }

  /** What `requestWithLatestMessage` sends: the outgoing list, the
      timestamp and the signature computed over them. */
  datatype Request = Request(messages: seq<Message>, time: int, sign: string)

  // ---------------------------------------------------------------------
  // Reading the response body
  // ---------------------------------------------------------------------

  /** One result of `reader.read()`: `value` is the decoded chunk, `None`
      when the read carried no bytes; `done` is the reader's end flag. */
  datatype Read = Read(value: Option<string>, done: bool)

  predicate EndsWithNewline(s: string)
  {
    |s| > 0 && s[|s| - 1] == '\n'
  }

  /** A lone newline chunk arriving when the pending text already ends in a
      newline is dropped by the read loop. */
  predicate Suppressed(pending: string, chunk: string)
  {
    chunk == "\n" && EndsWithNewline(pending)
  }

  /** The effect of one decoded chunk on the pending text. */
  function Append(pending: string, chunk: string): (next: string)
    ensures next == pending <==> Suppressed(pending, chunk) || chunk == ""
    ensures next != pending ==> next == pending + chunk
  {
    if Suppressed(pending, chunk) || chunk == "" then pending else pending + chunk
  }

  /** The pending text after a run of chunks, applied in arrival order. */
  function Accumulate(pending: string, chunks: seq<string>): (next: string)
    ensures pending <= next
    decreases |chunks|
  {
    if chunks == [] then pending else Accumulate(Append(pending, chunks[0]), chunks[1..])
  }

  /** The chunks concatenated in order. */
  function Concat(chunks: seq<string>): string
    decreases |chunks|
  {
    if chunks == [] then "" else chunks[0] + Concat(chunks[1..])
  }

  /** Without lone-newline chunks nothing is dropped: the pending text grows
      by exactly the concatenation of the chunks. */
  lemma {:induction false} AccumulateWithoutNewlines(pending: string, chunks: seq<string>)
    requires forall i :: 0 <= i < |chunks| ==> chunks[i] != "\n"
    ensures Accumulate(pending, chunks) == pending + Concat(chunks)
    decreases |chunks|
  {
    if chunks != [] {
      var chunk, rest := chunks[0], chunks[1..];
      assert chunk != "\n" && !Suppressed(pending, chunk);
      assert forall i :: 0 <= i < |rest| ==> rest[i] == chunks[i + 1];
      if chunk == "" {
        assert pending + chunk == pending;
      }
      assert Append(pending, chunk) == pending + chunk;
      assert Accumulate(pending, chunks) == Accumulate(pending + chunk, rest);
      AccumulateWithoutNewlines(pending + chunk, rest);
      assert Concat(chunks) == chunk + Concat(rest);
      assert pending + chunk + Concat(rest) == pending + (chunk + Concat(rest));
    }
  }

  /** The chunks carried by a run of reads, in order. */
  function Chunks(arrived: seq<Read>): seq<string>
    decreases |arrived|
  {
    if arrived == [] then []
    else (if arrived[0].value.Some? then [arrived[0].value.value] else []) + Chunks(arrived[1..])
  }

  /** The `continue` of the read loop: a suppressed newline skips the rest of
      the loop body, including `done = readerDone`. */
  predicate Skipped(pending: string, read: Read)
  {
    read.value.Some? && Suppressed(pending, read.value.value)
  }

  /** The pending text after one read. */
  function Feed(pending: string, read: Read): string
  {
    if read.value.Some? then Append(pending, read.value.value) else pending
  }

  /** Where the read loop stands: the pending text, whether the loop has
      ended, and the index of the next read it would take. */
  datatype Pumped = Pumped(pending: string, done: bool, next: nat)

  /** A read ends the loop when it carries the reader's end flag and is not
      skipped by the `continue` of a suppressed newline. */
  predicate EndsLoop(pending: string, read: Read)
  {
    read.done && !Skipped(pending, read)
  }

  /** The read loop run over `arrived` from index `i` with the given pending
      text, until a read ends it or the reads run out.  It takes at least
      one read when there is one, ends on a read with the end flag, and
      otherwise takes every read. */
  function PumpFrom(pending: string, arrived: seq<Read>, i: nat): (r: Pumped)
    requires i <= |arrived|
    ensures i <= r.next <= |arrived|
    ensures r.done ==> r.next > i && arrived[r.next - 1].done
    ensures !r.done ==> r.next == |arrived|
    decreases |arrived| - i
  {
    if i == |arrived| then Pumped(pending, false, i)
    else
      var read := arrived[i];
      var next := Feed(pending, arrived[i]);
      if EndsLoop(pending, read) then Pumped(next, true, i + 1)
      else PumpFrom(next, arrived, i + 1)
  }

  /** Accumulating the chunks of a run of reads is feeding its first read
      and then accumulating the chunks of the others. */
  lemma {:induction false} FeedThenRest(pending: string, arrived: seq<Read>, i: nat, n: nat)
    requires i < n <= |arrived|
    ensures Accumulate(pending, Chunks(arrived[i..n]))
         == Accumulate(Feed(pending, arrived[i]), Chunks(arrived[i + 1..n]))
  {
    var rest := arrived[i..n];
    assert rest[0] == arrived[i] && rest[1..] == arrived[i + 1..n];
    var tail := Chunks(arrived[i + 1..n]);
    if arrived[i].value.Some? {
      var chunk := arrived[i].value.value;
      assert Chunks(rest) == [chunk] + tail;
      assert ([chunk] + tail)[0] == chunk && ([chunk] + tail)[1..] == tail;
    } else {
      assert Chunks(rest) == [] + tail == tail;
    }
  }

  /** The read loop applies the chunks of the reads it takes, in order. */
  lemma {:induction false} PumpFromAccumulates(pending: string, arrived: seq<Read>, i: nat)
    requires i <= |arrived|
    ensures var r := PumpFrom(pending, arrived, i);
      r.pending == Accumulate(pending, Chunks(arrived[i..r.next]))
    decreases |arrived| - i
  {
    if i < |arrived| {
      var read := arrived[i];
      var next := Feed(pending, read);
      if EndsLoop(pending, read) {
        FeedThenRest(pending, arrived, i, i + 1);
        assert Chunks(arrived[i + 1..i + 1]) == [];
      } else {
        PumpFromAccumulates(next, arrived, i + 1);
        FeedThenRest(pending, arrived, i, PumpFrom(next, arrived, i + 1).next);
      }
    }
  }

  /** The read loop stops at the first read that ends it, given the text
      pending when that read arrives: a read with the end flag that is a
      suppressed newline does not stop it. */
  lemma {:induction false} PumpFromStopsAtFirstEnd(pending: string, arrived: seq<Read>, i: nat)
    requires i <= |arrived|
    ensures var r := PumpFrom(pending, arrived, i);
      && (r.done ==> EndsLoop(Accumulate(pending, Chunks(arrived[i..r.next - 1])), arrived[r.next - 1]))
      && (forall j :: i <= j < r.next && (j < r.next - 1 || !r.done) ==>
            !EndsLoop(Accumulate(pending, Chunks(arrived[i..j])), arrived[j]))
    decreases |arrived| - i
  {
    if i < |arrived| {
      var read := arrived[i];
      var next := Feed(pending, read);
      assert Chunks(arrived[i..i]) == [];
      if !EndsLoop(pending, read) {
        PumpFromStopsAtFirstEnd(next, arrived, i + 1);
        var r := PumpFrom(next, arrived, i + 1);
        forall j | i < j <= r.next
          ensures Accumulate(pending, Chunks(arrived[i..j])) == Accumulate(next, Chunks(arrived[i + 1..j]))
        {
          FeedThenRest(pending, arrived, i, j);
        }
      }
    }
  }

  /** A single read arriving while nothing is pending: its chunk becomes the
      pending text, and the loop ends exactly when the read's end flag is set. */
  lemma {:induction false} SingleRead(chunk: string, done: bool)
    ensures PumpFrom("", [Read(Some(chunk), done)], 0) == Pumped(chunk, done, 1)
  {
    assert "" + chunk == chunk;
  }

  // ---------------------------------------------------------------------
  // The component's state and its handlers
  // ---------------------------------------------------------------------

  class Conversation {
    /** `messageList`: the conversation log. */
    var messageList: seq<Message>
    /** `currentAssistantMessage`: the assistant text streamed so far. */
    var pending: string
    /** `loading`: a request is under way. */
    var loading: bool
    /** whether `controller` holds an `AbortController` (it is `null` otherwise). */
    var hasController: bool
    /** `currentSystemRoleSettings`: the system prompt, empty when unset. */
    var systemRole: string

    /** Every handler sets `loading` and the controller together, so the two
        flags always agree. */
    ghost predicate Consistent()
      reads this
    {
      loading == hasController
    }

    /** A request has just been started: loading, with a controller, and the
        pending text reset. */
    ghost predicate Started()
      reads this
    {
      loading && hasController && pending == ""
    }

    /** `req` is the request the current state sends at time `now`. */
    ghost predicate Issued(req: Request, now: int, sign: (int, string) -> string)
      reads this
    {
      && req.messages == OutgoingList(systemRole, messageList)
      && req.time == now
      && req.sign == sign(now, SignedContent(req.messages))
    }

    /** The signals as created at mount. */
    constructor ()
      ensures Consistent()
      ensures messageList == [] && pending == "" && systemRole == ""
      ensures !loading && !hasController
    {
      messageList := [];
      pending := "";
      loading := false;
      hasController := false;
      systemRole := "";
    }

    /** `handleButtonClick`: rejects only the empty string; otherwise appends
        one user message (the templated prompt when the log is empty, the
        input verbatim otherwise) and starts a request.  It does not look at
        `loading`. */
    method HandleButtonClick(input: string, now: int, sign: (int, string) -> string)
      returns (req: Option<Request>)
      requires Consistent()
      modifies this
      ensures Consistent()
      ensures input == "" ==> req == None && unchanged(this)
      ensures input != "" ==>
        && messageList == old(messageList)
             + [Message(User, if old(messageList) == [] then Template(input) else input)]
        && systemRole == old(systemRole)
        && Started()
        && req.Some? && Issued(req.value, now, sign)
        && req.value.sign == sign(now, messageList[|messageList| - 1].content)
    {
      if input == "" {
        return None;
      }
      var inputValue := input;
      if |messageList| == 0 {
        inputValue := Template(input);
      }
      messageList := messageList + [Message(User, inputValue)];
      var r := RequestWithLatestMessage(now, sign);
      req := Some(r);
      SignedContentOfOutgoing(systemRole, messageList);
    }

    /** The synchronous part of `requestWithLatestMessage`, up to the fetch:
        sets `loading`, clears the pending text, installs a controller, and
        builds the outgoing list and the signature over its last content. */
    method RequestWithLatestMessage(now: int, sign: (int, string) -> string)
      returns (req: Request)
      requires Consistent()
      modifies this
      ensures Consistent()
      ensures Started()
      ensures messageList == old(messageList) && systemRole == old(systemRole)
      ensures Issued(req, now, sign)
    {
      loading := true;
      pending := "";
      hasController := true;
      var requestMessageList := messageList;
      if systemRole != "" {
        requestMessageList := [Message(System, systemRole)] + requestMessageList;
      }
      var last := if |requestMessageList| > 0
        then requestMessageList[|requestMessageList| - 1].content else "";
      req := Request(requestMessageList, now, sign(now, last));
    }

    /** The read loop of `requestWithLatestMessage` over the reads that have
        arrived, followed by `archiveCurrentMessage` when the reader reports
        the end.  Returns whether the loop ended. */
    method Pump(arrived: seq<Read>) returns (finished: bool)
      requires Consistent()
      modifies this
      ensures Consistent()
      ensures systemRole == old(systemRole)
      ensures var r := PumpFrom(old(pending), arrived, 0);
        && finished == r.done
        && if finished && r.pending != "" then
             && messageList == old(messageList) + [Message(Assistant, r.pending)]
             && pending == "" && !loading && !hasController
           else
             && messageList == old(messageList) && pending == r.pending
             && loading == old(loading) && hasController == old(hasController)
      ensures !finished ==> old(pending) <= pending
    {
      var done := false;
      var i := 0;
      while !done && i < |arrived|
        invariant 0 <= i <= |arrived|
        invariant messageList == old(messageList) && systemRole == old(systemRole)
        invariant loading == old(loading) && hasController == old(hasController)
        invariant !done ==> PumpFrom(pending, arrived, i) == PumpFrom(old(pending), arrived, 0)
        invariant done ==> PumpFrom(old(pending), arrived, 0) == Pumped(pending, true, i)
      {
        var read := arrived[i];
        i := i + 1;
        if read.value.Some? {
          var chunk := read.value.value;
          if chunk == "\n" && EndsWithNewline(pending) {
            continue;
          }
          if chunk != "" {
            pending := pending + chunk;
          }
        }
        done := read.done;
      }
      finished := done;
      PumpFromAccumulates(old(pending), arrived, 0);
      if done {
        ArchiveCurrentMessage();
      }
    }

    /** The `catch` block: a non-ok status, a missing body or a failed read.
        Clears `loading` and the controller; the log and the pending text
        stay as they are. */
    method HandleFailure()
      requires Consistent()
      modifies this
      ensures Consistent()
      ensures !loading && !hasController
      ensures messageList == old(messageList) && pending == old(pending)
      ensures systemRole == old(systemRole)
    {
      loading := false;
      hasController := false;
    }

    /** `archiveCurrentMessage`: a non-empty pending text becomes one new
        assistant message and the request ends; with nothing pending, nothing
        at all changes (`loading` stays set). */
    method ArchiveCurrentMessage()
      requires Consistent()
      modifies this
      ensures Consistent()
      ensures old(pending) == "" ==> unchanged(this)
      ensures old(pending) != "" ==>
        && messageList == old(messageList) + [Message(Assistant, old(pending))]
        && pending == "" && !loading && !hasController
        && systemRole == old(systemRole)
    {
      if pending != "" {
        messageList := messageList + [Message(Assistant, pending)];
        pending := "";
        loading := false;
        hasController := false;
      }
    }

    /** `clear`: empties the log, the pending text and the system role;
        `loading` and the controller are left alone. */
    method Clear()
      requires Consistent()
      modifies this
      ensures Consistent()
      ensures messageList == [] && pending == "" && systemRole == ""
      ensures loading == old(loading) && hasController == old(hasController)
    {
      messageList := [];
      pending := "";
      systemRole := "";
    }

    /** `stopStreamFetch`: with a controller present, aborts (outside the
        model) and archives the pending text; without one, does nothing. */
    method StopStreamFetch()
      requires Consistent()
      modifies this
      ensures Consistent()
      ensures !old(hasController) || old(pending) == "" ==> unchanged(this)
      ensures old(hasController) && old(pending) != "" ==>
        && messageList == old(messageList) + [Message(Assistant, old(pending))]
        && pending == "" && !loading && !hasController
        && systemRole == old(systemRole)
    {
      if hasController {
        ArchiveCurrentMessage();
      }
    }

    /** `retryLastFetch`: when the log ends with an assistant message, drops
        exactly that message and starts a request without adding a user
        message; otherwise does nothing.  It does not look at `loading`. */
    method RetryLastFetch(now: int, sign: (int, string) -> string)
      returns (req: Option<Request>)
      requires Consistent()
      modifies this
      ensures Consistent()
      ensures var log := old(messageList);
        if |log| > 0 && log[|log| - 1].role == Assistant then
          && messageList == log[..|log| - 1]
          && systemRole == old(systemRole)
          && Started()
          && req.Some? && Issued(req.value, now, sign)
        else
          req == None && unchanged(this)
    {
      req := None;
      if |messageList| > 0 {
        var lastMessage := messageList[|messageList| - 1];
        if lastMessage.role == Assistant {
          messageList := messageList[..|messageList| - 1];
          var r := RequestWithLatestMessage(now, sign);
          req := Some(r);
        }
      }
    }
  }

  // ---------------------------------------------------------------------
  // Runs of several handlers
  // ---------------------------------------------------------------------

  /** Stopping a stream keeps what has arrived: "Buy now" becomes the
      assistant's reply and the request ends. */
  method CancelKeepsPartialText() returns (log: seq<Message>, busy: bool)
    ensures log == [Message(User, Template("KFC")), Message(Assistant, "Buy now")]
    ensures !busy
  {
    var c := new Conversation();
    var sign := (t: int, m: string) => m;
    var _ := c.HandleButtonClick("KFC", 0, sign);
    SingleRead("Buy now", false);
    var _ := c.Pump([Read(Some("Buy now"), false)]);
    c.StopStreamFetch();
    log, busy := c.messageList, c.loading;
  }

  /** Retrying after a reply, and then receiving a new complete reply,
      replaces the old reply with the new one and ends the request. */
  method RetryReplacesReply(c: Conversation, now: int, sign: (int, string) -> string, reply: string)
    requires c.Consistent()
    requires |c.messageList| > 0 && c.messageList[|c.messageList| - 1].role == Assistant
    requires reply != ""
    modifies c
    ensures c.messageList == old(c.messageList)[..|old(c.messageList)| - 1] + [Message(Assistant, reply)]
    ensures !c.loading && c.pending == ""
  {
    var _ := c.RetryLastFetch(now, sign);
    SingleRead(reply, true);
    var _ := c.Pump([Read(Some(reply), true)]);
  }

  /** A failed read ends the request but keeps the text streamed before the
      failure pending, and archives nothing. */
  method FailureKeepsPendingText() returns (log: seq<Message>, text: string, busy: bool)
    ensures log == [Message(User, Template("KFC"))]
    ensures text == "Buy" && !busy
  {
    var c := new Conversation();
    var sign := (t: int, m: string) => m;
    var _ := c.HandleButtonClick("KFC", 0, sign);
    SingleRead("Buy", false);
    var _ := c.Pump([Read(Some("Buy"), false)]);
    c.HandleFailure();
    log, text, busy := c.messageList, c.pending, c.loading;
  }

  /** Stopping before any text has arrived archives nothing, so the
      component stays loading. */
  method EarlyStopStaysLoading() returns (log: seq<Message>, busy: bool)
    ensures log == [Message(User, Template("KFC"))]
    ensures busy
  {
    var c := new Conversation();
    var sign := (t: int, m: string) => m;
    var _ := c.HandleButtonClick("KFC", 0, sign);
    c.StopStreamFetch();
    log, busy := c.messageList, c.loading;
  }
}
