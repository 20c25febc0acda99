/**
  * What the question-answering agent returns once the model has finished:
  * the names of the tools it called, the text the tools gave back, and the
  * answer.  The model and the tool loop it drives are not modelled; their
  * output, the message list, is the input here.
  */
module Agent {
  import opened Wrappers
  import opened Text
  import opened Js
  import Indexing

  /** One message of the conversation: an AI message with the names of the
      tools it asked for, a tool's reply, or any other message. */
  datatype Message =
    | AIMessage(content: Value, toolCalls: seq<string>)
    | ToolMessage(content: Value)
    | OtherMessage(content: Value)

  const NoAnswer := "I was unable to generate an answer."
  const ContextSeparator := "\n\n"

  /** One element of an array content as `join("")` writes it: a string as
      it is, the `text` property of an object that has one (`null` and
      `undefined` as "", anything else in its string form), and "" for
      everything else.  `numText` is `Number.prototype.toString`. */
  function PartText(p: Value, numText: real -> string): string {
    if p.Str? then p.s
    else if p.Obj? && HasKey(p.fields, "text") then
      var t := Get(p.fields, "text").value;
      if t.Undefined? || t.Null? then "" else Indexing.StringOf(t, numText)
    else ""
  }

  /** `textContent`: string content unchanged, array content as the
      concatenation of its parts' texts, and "" for any other content. */
  function TextContent(content: Value, numText: real -> string): string {
    match content
    case Str(s) => s
    case Arr(_, items) => Join(seq(|items|, i requires 0 <= i < |items| => PartText(items[i], numText)), "")
    case _ => ""
  }

  /** Joining with "" concatenates. */
  lemma {:induction false} JoinEmptyConcat(a: string, rest: seq<string>)
    ensures Join([a] + rest, "") == a + Join(rest, "")
  {
    if rest != [] {
      assert ([a] + rest)[1..] == rest;
    }
  }

  /** Array content is read part by part: a string part is its own text, an
      object part with a string `text` property is that text, and a part
      that is neither a string nor an object with a `text` property (a
      number, a boolean, `null`, an array, an object without `text`)
      contributes nothing. */
  lemma TextContentParts(ref: nat, p: Value, rest: seq<Value>, numText: real -> string)
    ensures TextContent(Arr(ref, [p] + rest), numText) == PartText(p, numText) + TextContent(Arr(ref, rest), numText)
    ensures p.Str? ==> TextContent(Arr(ref, [p] + rest), numText) == p.s + TextContent(Arr(ref, rest), numText)
    ensures p.Obj? && Get(p.fields, "text").Some? && Get(p.fields, "text").value.Str? ==>
      TextContent(Arr(ref, [p] + rest), numText) == Get(p.fields, "text").value.s + TextContent(Arr(ref, rest), numText)
    ensures !p.Str? && !(p.Obj? && HasKey(p.fields, "text")) ==>
      TextContent(Arr(ref, [p] + rest), numText) == TextContent(Arr(ref, rest), numText)
    ensures TextContent(Arr(ref, []), numText) == ""
  {
    var parts := seq(|rest|, i requires 0 <= i < |rest| => PartText(rest[i], numText));
    assert seq(|[p] + rest|, i requires 0 <= i < |[p] + rest| => PartText(([p] + rest)[i], numText)) == [PartText(p, numText)] + parts;
    JoinEmptyConcat(PartText(p, numText), parts);
  }

  /** The names of the tool calls of one message. */
  function CallsOf(m: Message): seq<string> {
    if m.AIMessage? then m.toolCalls else []
  }

  /** The text one message adds to the retrieved context. */
  function ContextOf(m: Message, numText: real -> string): seq<string> {
    if m.ToolMessage? && TextContent(m.content, numText) != "" then [TextContent(m.content, numText)] else []
  }

  /** Every tool call of the AI messages, in message order. */
  function ToolCalls(ms: seq<Message>): seq<string> {
    if ms == [] then [] else ToolCalls(ms[..|ms| - 1]) + CallsOf(ms[|ms| - 1])
  }

  /** The non-empty texts of the tool messages, in order. */
  function ContextParts(ms: seq<Message>, numText: real -> string): seq<string> {
    if ms == [] then [] else ContextParts(ms[..|ms| - 1], numText) + ContextOf(ms[|ms| - 1], numText)
  }

  /** The answer: the text of the last message when it is an AI message,
      with a fixed sentence in place of an empty one. */
  function Answer(ms: seq<Message>, numText: real -> string): string {
    var answer := if ms != [] && ms[|ms| - 1].AIMessage? then TextContent(ms[|ms| - 1].content, numText) else "";
    if answer != "" then answer else NoAnswer
  }

  datatype AgentAskResult = AgentAskResult(answer: string, toolCalls: seq<string>, retrievedContext: string)

  /** The loop over the messages that the returned closure runs. */
  method Aggregate(messages: seq<Message>, numText: real -> string) returns (result: AgentAskResult)
    ensures result.toolCalls == ToolCalls(messages)
    ensures result.retrievedContext == Join(ContextParts(messages, numText), ContextSeparator)
    ensures result.answer == Answer(messages, numText)
  {
    var toolCalls: seq<string> := [];
    var contextParts: seq<string> := [];
    var i := 0;
    while i < |messages|
      invariant 0 <= i <= |messages|
      invariant toolCalls == ToolCalls(messages[..i])
      invariant contextParts == ContextParts(messages[..i], numText)
    {
      var msg := messages[i];
      assert messages[..i + 1][..i] == messages[..i];
      if msg.AIMessage? && |msg.toolCalls| > 0 {
        var j := 0;
        while j < |msg.toolCalls|
          invariant 0 <= j <= |msg.toolCalls|
          invariant toolCalls == ToolCalls(messages[..i]) + msg.toolCalls[..j]
        {
          toolCalls := toolCalls + [msg.toolCalls[j]];
          assert msg.toolCalls[..j + 1] == msg.toolCalls[..j] + [msg.toolCalls[j]];
          j := j + 1;
        }
        assert msg.toolCalls[..j] == msg.toolCalls;
      }
      if msg.ToolMessage? {
        var text := TextContent(msg.content, numText);
        if text != "" {
          contextParts := contextParts + [text];
        }
      }
      i := i + 1;
    }
    assert messages[..i] == messages;
    var answer := "";
    if |messages| > 0 && messages[|messages| - 1].AIMessage? {
      answer := TextContent(messages[|messages| - 1].content, numText);
    }
    result := AgentAskResult(if answer != "" then answer else NoAnswer, toolCalls, Join(contextParts, ContextSeparator));
  }

  /** The tool calls of consecutive stretches of messages follow each other. */
  lemma {:induction false} ToolCallsAppend(a: seq<Message>, b: seq<Message>)
    ensures ToolCalls(a + b) == ToolCalls(a) + ToolCalls(b)
    decreases |b|
  {
    if b != [] {
      var ab := a + b;
      assert ab[..|ab| - 1] == a + b[..|b| - 1];
      assert ab[|ab| - 1] == b[|b| - 1];
      ToolCallsAppend(a, b[..|b| - 1]);
    } else {
      assert a + b == a;
    }
  }

  /** A name is among the tool calls exactly when some AI message asked for it. */
  lemma {:induction false} ToolCallsMember(ms: seq<Message>, name: string)
    ensures name in ToolCalls(ms) <==> exists i :: 0 <= i < |ms| && ms[i].AIMessage? && name in ms[i].toolCalls
  {
    if ms != [] {
      var init := ms[..|ms| - 1];
      ToolCallsMember(init, name);
      if name in ToolCalls(init) {
        var i :| 0 <= i < |init| && init[i].AIMessage? && name in init[i].toolCalls;
        assert ms[i] == init[i];
      }
      if exists i :: 0 <= i < |ms| && ms[i].AIMessage? && name in ms[i].toolCalls {
        var i :| 0 <= i < |ms| && ms[i].AIMessage? && name in ms[i].toolCalls;
        if i < |ms| - 1 {
          assert init[i] == ms[i];
        }
      }
    }
  }

  /** The context parts of consecutive stretches of messages follow each other. */
  lemma {:induction false} ContextPartsAppend(a: seq<Message>, b: seq<Message>, numText: real -> string)
    ensures ContextParts(a + b, numText) == ContextParts(a, numText) + ContextParts(b, numText)
    decreases |b|
  {
    if b != [] {
      var ab := a + b;
      assert ab[..|ab| - 1] == a + b[..|b| - 1];
      assert ab[|ab| - 1] == b[|b| - 1];
      ContextPartsAppend(a, b[..|b| - 1], numText);
    } else {
      assert a + b == a;
    }
  }

  /** Every part of the context is the non-empty text of some tool message. */
  lemma {:induction false} ContextPartsFrom(ms: seq<Message>, numText: real -> string, k: nat)
    requires k < |ContextParts(ms, numText)|
    ensures ContextParts(ms, numText)[k] != ""
    ensures exists i :: 0 <= i < |ms| && ms[i].ToolMessage? && ContextParts(ms, numText)[k] == TextContent(ms[i].content, numText)
  {
    var init := ms[..|ms| - 1];
    var parts := ContextParts(ms, numText);
    if k < |ContextParts(init, numText)| {
      ContextPartsFrom(init, numText, k);
      var i :| 0 <= i < |init| && init[i].ToolMessage? && ContextParts(init, numText)[k] == TextContent(init[i].content, numText);
      assert ms[i] == init[i];
    } else {
      assert parts[k] == TextContent(ms[|ms| - 1].content, numText);
    }
  }

  /** The answer is never empty; it is the last message's text exactly when
      that is a non-empty AI message, and the fixed sentence otherwise. */
  lemma AnswerResult(ms: seq<Message>, numText: real -> string)
    ensures Answer(ms, numText) != ""
    ensures ms != [] && ms[|ms| - 1].AIMessage? && TextContent(ms[|ms| - 1].content, numText) != "" ==>
      Answer(ms, numText) == TextContent(ms[|ms| - 1].content, numText)
    ensures ms == [] || !ms[|ms| - 1].AIMessage? || TextContent(ms[|ms| - 1].content, numText) == "" ==>
      Answer(ms, numText) == NoAnswer
  {
  }
}
