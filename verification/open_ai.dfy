/** The upstream side of src/utils/openAI.ts: the request record built by
    `generatePayload`, and the decision `streamParser` takes for each event
    of the upstream event stream, folded over the events in arrival order.

    The event framing (the `eventsource-parser` library) and `JSON.parse`
    are outside the model: events arrive already framed, and the parsed
    value of an event's data is given by a parameter `parse`. */
module OpenAI {
  import opened ChatTypes

  // ---------------------------------------------------------------------
  // The request payload
  // ---------------------------------------------------------------------

  /** The JSON body of the upstream request (the `temperature` number is not
      part of this model). */
  datatype Body = Body(model: string, messages: seq<Message>, stream: bool)

  /** The `RequestInit` record: headers, HTTP method and body. */
  datatype Payload = Payload(headers: map<string, string>, httpMethod: string, body: Body)

  const BearerPrefix: string := "Bearer "

  /** The API key an `Authorization` header carries, if it is a bearer header. */
  function BearerToken(header: string): Option<string>
  {
    if |header| >= |BearerPrefix| && header[..|BearerPrefix|] == BearerPrefix
    then Some(header[|BearerPrefix|..]) else None
  }

  /** `generatePayload`: a streamed POST to the `gpt-3.5-turbo` model whose
      bearer header carries the API key and whose body passes the messages
      through in order. */
  function GeneratePayload(apiKey: string, messages: seq<Message>): (p: Payload)
    ensures p.httpMethod == "POST"
    ensures p.headers.Keys == {"Content-Type", "Authorization"}
    ensures p.headers["Content-Type"] == "application/json"
    ensures BearerToken(p.headers["Authorization"]) == Some(apiKey)
    ensures p.body.model == "gpt-3.5-turbo" && p.body.stream
    ensures p.body.messages == messages
  {
    var authorization := BearerPrefix + apiKey;
    assert authorization[..|BearerPrefix|] == BearerPrefix;
    assert authorization[|BearerPrefix|..] == apiKey;
    Payload(map["Content-Type" := "application/json", "Authorization" := authorization],
            "POST", Body("gpt-3.5-turbo", messages, true))
  }

  // ---------------------------------------------------------------------
  // One event
  // ---------------------------------------------------------------------

  /** `delta` of a choice: its `content`, `None` when absent. */
  datatype Delta = Delta(content: Option<string>)

  /** One element of `choices`: its `delta`, `None` when absent. */
  datatype Choice = Choice(delta: Option<Delta>)

  /** What `JSON.parse` gives for an event's data, as far as the parser looks
      at it: `Unparseable` when parsing throws or the value has no
      properties; otherwise an object whose `choices` may be absent. */
  datatype Json = Unparseable | Obj(choices: Option<seq<Choice>>)

  /** What the event parser hands to `streamParser`: an event with its data,
      or a reconnect interval. */
  datatype Item = Event(data: string) | ReconnectInterval(interval: int)

  /** What `streamParser` does to the stream controller for one item. */
  datatype Action = Ignore | Close | Enqueue(text: string) | Error

  /** The data of the event that ends the stream. */
  const DoneSentinel: string := "[DONE]"

  /** `choices[0].delta?.content || ''`: an absent delta, or an absent or
      empty content, gives the empty string. */
  function ChoiceText(choice: Choice): string
  {
    match choice.delta
    case None => ""
    case Some(delta) => match delta.content
      case None => ""
      case Some(content) => content
  }

  /** `streamParser` for one item. */
  function Decide(parse: string -> Json, item: Item): (a: Action)
    ensures a == Ignore <==> item.ReconnectInterval?
    ensures a == Close <==> item == Event(DoneSentinel)
    ensures a == Error <==>
      && item.Event? && item.data != DoneSentinel
      && (|| parse(item.data).Unparseable?
          || parse(item.data).choices.None?
          || parse(item.data).choices.value == [])
    ensures a.Enqueue? && parse(item.data).choices.value[0].delta.Some?
            && parse(item.data).choices.value[0].delta.value.content.Some? ==>
      a.text == parse(item.data).choices.value[0].delta.value.content.value
    ensures a.Enqueue? && (|| parse(item.data).choices.value[0].delta.None?
                           || parse(item.data).choices.value[0].delta.value.content.None?) ==>
      a.text == ""
  {
    match item
    case ReconnectInterval(_) => Ignore
    case Event(data) =>
      if data == DoneSentinel then Close
      else match parse(data)
        case Unparseable => Error
        case Obj(choices) =>
          if choices.None? || choices.value == [] then Error
          else Enqueue(ChoiceText(choices.value[0]))
  }

  // ---------------------------------------------------------------------
  // The stream
  // ---------------------------------------------------------------------

  /** The readable stream `parseOpenAIStream` returns: the fragments enqueued
      so far, and whether it is still open, closed or errored. */
  datatype Stream = Open(out: seq<string>) | Closed(out: seq<string>) | Errored(out: seq<string>)

  /** One action on the stream controller.  Once the stream is closed or
      errored nothing changes any more here.  For an errored stream that is
      what the Streams standard does.  For a closed one it holds once the
      reader has drained the queue: a later `enqueue` then throws into the
      `catch`, whose `error` is a no-op, and a later `close` throws out of
      the parser.  While closed-but-unread fragments are still queued, that
      `error` would instead error the stream and discard them; the model
      does not follow the reader's timing. */
  function Apply(s: Stream, a: Action): (r: Stream)
    ensures !s.Open? ==> r == s
    ensures s.Open? ==> r.out == s.out + (if a.Enqueue? then [a.text] else [])
    ensures s.Open? ==> (r.Open? <==> !Stops(a)) && (r.Closed? <==> a == Close)
  {
    if !s.Open? then s
    else match a
      case Ignore => s
      case Close => Closed(s.out)
      case Enqueue(text) => Open(s.out + [text])
      case Error => Errored(s.out)
  }

  /** The stream after the items, handled in arrival order. */
  function Run(parse: string -> Json, s: Stream, items: seq<Item>): (r: Stream)
    ensures s.out <= r.out
    ensures r.Open? ==> s.Open?
    decreases |items|
  {
    if items == [] then s
    else
      var next := Apply(s, Decide(parse, items[0]));
      var r := Run(parse, next, items[1..]);
      assert s.out <= next.out <= r.out;
      r
  }

  predicate Stops(a: Action)
  {
    a.Close? || a.Error?
  }

  /** The index of the first item that closes or errors the stream, or the
      number of items when there is none. */
  function FirstStop(parse: string -> Json, items: seq<Item>): (k: nat)
    ensures k <= |items|
    ensures forall j :: 0 <= j < k ==> !Stops(Decide(parse, items[j]))
    ensures k < |items| ==> Stops(Decide(parse, items[k]))
    decreases |items|
  {
    if items == [] || Stops(Decide(parse, items[0])) then 0
    else 1 + FirstStop(parse, items[1..])
  }

  /** The fragments the items enqueue, in order. */
  function Emitted(parse: string -> Json, items: seq<Item>): seq<string>
    decreases |items|
  {
    if items == [] then []
    else
      var a := Decide(parse, items[0]);
      (if a.Enqueue? then [a.text] else []) + Emitted(parse, items[1..])
  }

  /** A closed or errored stream stays as it is. */
  lemma {:induction false} RunAfterStop(parse: string -> Json, s: Stream, items: seq<Item>)
    requires !s.Open?
    ensures Run(parse, s, items) == s
    decreases |items|
  {
    if items != [] {
      RunAfterStop(parse, s, items[1..]);
    }
  }

  /** Over a run of items, the stream carries the fragments of the items
      before the first close or error, in arrival order, and ends in the
      state that item chooses; with no such item it stays open and carries
      every fragment. */
  lemma {:induction false} RunOutput(parse: string -> Json, out: seq<string>, items: seq<Item>)
    ensures var k := FirstStop(parse, items);
      Run(parse, Open(out), items) ==
        if k == |items| then Open(out + Emitted(parse, items))
        else if Decide(parse, items[k]).Close? then Closed(out + Emitted(parse, items[..k]))
        else Errored(out + Emitted(parse, items[..k]))
    decreases |items|
  {
    if items == [] {
      assert out + [] == out;
    } else if Stops(Decide(parse, items[0])) {
      RunAfterStop(parse, Apply(Open(out), Decide(parse, items[0])), items[1..]);
      assert out + Emitted(parse, items[..0]) == out;
    } else {
      var a := Decide(parse, items[0]);
      var head := if a.Enqueue? then [a.text] else [];
      RunOutput(parse, out + head, items[1..]);
      RunOutputStep(parse, out, items);
    }
  }

  /** The step of `RunOutput` past an item that neither closes nor errors:
      its fragment moves from the items to the output. */
  lemma {:induction false} RunOutputStep(parse: string -> Json, out: seq<string>, items: seq<Item>)
    requires items != [] && !Stops(Decide(parse, items[0]))
    ensures var a := Decide(parse, items[0]);
      var head := if a.Enqueue? then [a.text] else [];
      && FirstStop(parse, items) == 1 + FirstStop(parse, items[1..])
      && Run(parse, Open(out), items) == Run(parse, Open(out + head), items[1..])
      && out + head + Emitted(parse, items[1..]) == out + Emitted(parse, items)
      && (FirstStop(parse, items) < |items| ==>
            out + head + Emitted(parse, items[1..][..FirstStop(parse, items) - 1])
              == out + Emitted(parse, items[..FirstStop(parse, items)]))
  {
    var a := Decide(parse, items[0]);
    var head := if a.Enqueue? then [a.text] else [];
    assert Apply(Open(out), a) == Open(out + head);
    EmittedStep(parse, out, items);
    var k := FirstStop(parse, items);
    if k < |items| {
      var prefix := items[..k];
      assert prefix != [] && prefix[0] == items[0] && prefix[1..] == items[1..][..k - 1];
      EmittedStep(parse, out, prefix);
    }
  }

  /** The fragment of the first item comes first among those emitted. */
  lemma {:induction false} EmittedStep(parse: string -> Json, out: seq<string>, items: seq<Item>)
    requires items != []
    ensures var a := Decide(parse, items[0]);
      var head := if a.Enqueue? then [a.text] else [];
      out + head + Emitted(parse, items[1..]) == out + Emitted(parse, items)
  {
    var a := Decide(parse, items[0]);
    var head := if a.Enqueue? then [a.text] else [];
    assert Emitted(parse, items) == head + Emitted(parse, items[1..]);
    assert out + head + Emitted(parse, items[1..]) == out + (head + Emitted(parse, items[1..]));
  }

  /** Handling two runs of items one after the other is handling them joined. */
  lemma {:induction false} RunAppend(parse: string -> Json, s: Stream, first: seq<Item>, second: seq<Item>)
    ensures Run(parse, s, first + second) == Run(parse, Run(parse, s, first), second)
    decreases |first|
  {
    if first != [] {
      assert (first + second)[0] == first[0];
      assert (first + second)[1..] == first[1..] + second;
      RunAppend(parse, Apply(s, Decide(parse, first[0])), first[1..], second);
    } else {
      assert first + second == second;
    }
  }

  /** The events of the chunks, chunk after chunk. */
  function Flatten(chunks: seq<seq<Item>>): seq<Item>
    decreases |chunks|
  {
    if chunks == [] then [] else Flatten(chunks[..|chunks| - 1]) + chunks[|chunks| - 1]
  }

  /** The `for await` loop of `parseOpenAIStream`: each body chunk is fed to
      the event parser, which hands the chunk's events (given here as one
      sequence per chunk) to `streamParser` in order. */
  method ParseOpenAIStream(parse: string -> Json, chunks: seq<seq<Item>>) returns (s: Stream)
    ensures s == Run(parse, Open([]), Flatten(chunks))
  {
    s := Open([]);
    var i := 0;
    while i < |chunks|
      invariant 0 <= i <= |chunks|
      invariant s == Run(parse, Open([]), Flatten(chunks[..i]))
    {
      RunAppend(parse, Open([]), Flatten(chunks[..i]), chunks[i]);
      assert chunks[..i + 1][..i] == chunks[..i];
      s := Run(parse, s, chunks[i]);
      i := i + 1;
    }
    assert chunks[..i] == chunks;
  }
}
