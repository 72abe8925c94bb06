/** What the call wrappers read off a response (kya/autoinstrument.py), and the evidence they make of
    it: prompt, response, and a row per tool call. */
module Responses {
  import opened Common

  datatype Tool = Tool(name: string, args: string)

  // One evidence row to be.
  datatype Item =
    | Prompt(messages: seq<string>)
    | Response(content: string)
    | ToolCall(tool: Tool)
    | ErrorNote(kind: string, message: string)

  // What the wrapper hands to _capture_call, or to _capture_error.
  datatype Captured =
    | Completed(messages: seq<string>, content: string, tools: seq<Tool>)
    | Failed(messages: seq<string>, kind: string, message: string)

  const ERROR_CAP := 2000

  function ToolCalls(tools: seq<Tool>): seq<Item> {
    if tools == [] then [] else [ToolCall(tools[0])] + ToolCalls(tools[1..])
  }

  /** The evidence of one call: prompt, then response, then the tool calls; or prompt, then error. */
  function RowsOf(c: Captured): seq<Item> {
    (if c.messages == [] then [] else [Prompt(c.messages)])
    + match c
      case Completed(_, content, tools) => (if content == "" then [] else [Response(content)]) + ToolCalls(tools)
      case Failed(_, kind, message) =>
        [ErrorNote(kind, if |message| > ERROR_CAP then message[..ERROR_CAP] else message)]
  }

  // ── The responses ──────────────────────────────────────────────────

  // An entry of `tool_calls`; one without a function to name is passed over.
  datatype RawCall = Usable(tool: Tool) | Unusable

  // A content block of an Anthropic message.
  datatype Block = TextBlock(text: string) | ToolUse(tool: Tool) | OtherBlock

  datatype Reply =
    | NoChoice
    | Chat(content: string, calls: seq<RawCall>)
    | Message(blocks: seq<Block>)

  datatype Api = OpenAI | Anthropic | LiteLLM | LiteLLMAwaited

  /** The reply comes in the shape this API gives its responses. */
  predicate Shaped(api: Api, reply: Reply) {
    if api.Anthropic? then reply.Message? else !reply.Message?
  }

  // What f takes out of the elements, in order.
  function Pick<S, T>(xs: seq<S>, f: S -> Option<T>): seq<T> {
    if xs == [] then []
    else
      var n := |xs| - 1;
      Pick(xs[..n], f) + (if f(xs[n]).Some? then [f(xs[n]).value] else [])
  }

  lemma PickOne<S, T>(x: S, f: S -> Option<T>)
    ensures Pick([x], f) == if f(x).Some? then [f(x).value] else []
  {
    assert [x][..0] == [];
  }

  lemma {:induction false} PickConcat<S, T>(xs: seq<S>, ys: seq<S>, f: S -> Option<T>)
    ensures Pick(xs + ys, f) == Pick(xs, f) + Pick(ys, f)
    decreases |ys|
  {
    if ys == [] {
      assert xs + ys == xs;
    } else {
      var n := |ys| - 1;
      assert (xs + ys)[..|xs + ys| - 1] == xs + ys[..n];
      PickConcat(xs, ys[..n], f);
    }
  }

  function UsableTool(call: RawCall): Option<Tool> {
    if call.Usable? then Some(call.tool) else None
  }

  function BlockTool(block: Block): Option<Tool> {
    if block.ToolUse? then Some(block.tool) else None
  }

  function BlockText(block: Block): Option<string> {
    if block.TextBlock? then Some(block.text) else None
  }

  // "\n".join(parts)
  function Lines(parts: seq<string>): string {
    if parts == [] then "" else if |parts| == 1 then parts[0] else parts[0] + "\n" + Lines(parts[1..])
  }

  // The lines of a text, last one included.
  function SplitLines(s: string): (r: seq<string>)
    ensures r != []
  {
    if s == "" then [""]
    else
      var rest := SplitLines(s[1..]);
      if s[0] == '\n' then [""] + rest else [[s[0]] + rest[0]] + rest[1..]
  }

  lemma {:induction false} SplitFirst(p: string, rest: string)
    requires '\n' !in p
    ensures SplitLines(p + "\n" + rest) == [p] + SplitLines(rest) && SplitLines(p) == [p]
  {
    if p == "" {
      assert (p + "\n" + rest)[1..] == rest;
    } else {
      assert (p + "\n" + rest)[1..] == p[1..] + "\n" + rest;
      assert [p[0]] + p[1..] == p;
      SplitFirst(p[1..], rest);
    }
  }

  /** Joined texts without line breaks of their own can be told apart again. */
  lemma {:induction false} LinesReadBack(parts: seq<string>)
    requires parts != [] && forall k | 0 <= k < |parts| :: '\n' !in parts[k]
    ensures SplitLines(Lines(parts)) == parts
    decreases |parts|
  {
    SplitFirst(parts[0], "");
    if |parts| > 1 {
      SplitFirst(parts[0], Lines(parts[1..]));
      LinesReadBack(parts[1..]);
    }
  }

  /** The tool calls the model made. */
  function ToolsIn(reply: Reply): seq<Tool> {
    match reply
    case NoChoice => []
    case Chat(_, calls) => Pick(calls, UsableTool)
    case Message(blocks) => Pick(blocks, BlockTool)
  }

  /** Its text. */
  function TextIn(reply: Reply): string {
    match reply
    case NoChoice => ""
    case Chat(content, _) => content
    case Message(blocks) => Lines(Pick(blocks, BlockText))
  }

  // ── The wrappers ───────────────────────────────────────────────────

  /** The loop over `tool_calls` of the OpenAI and LiteLLM wrappers. */
  method ReadCalls(calls: seq<RawCall>) returns (tools: seq<Tool>)
    ensures tools == Pick(calls, UsableTool)
  {
    tools := [];
    for k := 0 to |calls|
      invariant tools == Pick(calls[..k], UsableTool)
    {
      assert calls[..k + 1][..k] == calls[..k];
      if calls[k].Usable? {
        tools := tools + [calls[k].tool];
      }
    }
    assert calls[..|calls|] == calls;
  }

  /** The loop over the content blocks of the Anthropic wrapper. */
  method ReadBlocks(blocks: seq<Block>) returns (parts: seq<string>, tools: seq<Tool>)
    ensures parts == Pick(blocks, BlockText) && tools == Pick(blocks, BlockTool)
  {
    parts, tools := [], [];
    for k := 0 to |blocks|
      invariant parts == Pick(blocks[..k], BlockText) && tools == Pick(blocks[..k], BlockTool)
    {
      assert blocks[..k + 1][..k] == blocks[..k];
      match blocks[k] {
        case TextBlock(text) => parts := parts + [text];
        case ToolUse(tool) => tools := tools + [tool];
        case OtherBlock =>
      }
    }
    assert blocks[..|blocks|] == blocks;
  }

  /** What each wrapper makes of a response: its text, and its tool calls, except that the wrapper of
      LiteLLM's acompletion never looks for any. */
  function CapturedOf(api: Api, messages: seq<string>, reply: Reply): Captured {
    Completed(messages, TextIn(reply), if api.LiteLLMAwaited? then [] else ToolsIn(reply))
  }

  /** The wrapper, on a response in the shape of its API. */
  method Read(api: Api, messages: seq<string>, reply: Reply) returns (c: Captured)
    requires Shaped(api, reply)
    ensures c == CapturedOf(api, messages, reply)
  {
    match reply {
      case NoChoice => c := Completed(messages, "", []);
      case Chat(content, calls) =>
        var tools := [];
        if !api.LiteLLMAwaited? {
          tools := ReadCalls(calls);
        }
        c := Completed(messages, content, tools);
      case Message(blocks) =>
        var parts, tools := ReadBlocks(blocks);
        c := Completed(messages, Lines(parts), tools);
    }
  }

  // ── A row per tool call ────────────────────────────────────────────

  function PromptIn(i: Item): Option<seq<string>> {
    if i.Prompt? then Some(i.messages) else None
  }

  function ResponseIn(i: Item): Option<string> {
    if i.Response? then Some(i.content) else None
  }

  function ToolIn(i: Item): Option<Tool> {
    if i.ToolCall? then Some(i.tool) else None
  }

  function ErrorIn(i: Item): Option<(string, string)> {
    if i.ErrorNote? then Some((i.kind, i.message)) else None
  }

  // Prompt, then response or error, then tool calls.
  function Rank(i: Item): nat {
    match i
    case Prompt(_) => 0
    case Response(_) => 1
    case ErrorNote(_, _) => 1
    case ToolCall(_) => 2
  }

  ghost predicate InPlace(rows: seq<Item>) {
    forall i, j | 0 <= i < j < |rows| :: Rank(rows[i]) <= Rank(rows[j])
  }

  // At most one element, there when asked for.
  function Only<T>(there: bool, x: T): seq<T> {
    if there then [x] else []
  }

  /** The rows are the evidence of this call: one prompt row with its messages if there are any; of a
      completed call one response row with its text if there is any, and its tool calls; of a failed
      one its error, cut to 2000 characters; the prompt before response or error, those before tools. */
  ghost predicate Evidence(rows: seq<Item>, c: Captured) {
    && InPlace(rows) && Pick(rows, PromptIn) == Only(c.messages != [], c.messages)
    && match c
       case Completed(_, content, tools) =>
         && Pick(rows, ResponseIn) == Only(content != "", content)
         && Pick(rows, ToolIn) == tools && Pick(rows, ErrorIn) == []
       case Failed(_, kind, message) =>
         && Pick(rows, ResponseIn) == [] && Pick(rows, ToolIn) == []
         && exists cut :: Pick(rows, ErrorIn) == [(kind, cut)] && cut <= message && |cut| == Min(|message|, 2000)
  }

  function Min(a: nat, b: nat): nat {
    if a <= b then a else b
  }

  lemma {:induction false} PickToolCalls<T>(tools: seq<Tool>, f: Item -> Option<T>)
    requires forall t :: f(ToolCall(t)).None?
    ensures Pick(ToolCalls(tools), f) == []
  {
    if tools != [] {
      PickConcat([ToolCall(tools[0])], ToolCalls(tools[1..]), f);
      PickOne(ToolCall(tools[0]), f);
      PickToolCalls(tools[1..], f);
    }
  }

  lemma {:induction false} ToolsOfCalls(tools: seq<Tool>)
    ensures Pick(ToolCalls(tools), ToolIn) == tools
    ensures forall i | 0 <= i < |ToolCalls(tools)| :: ToolCalls(tools)[i].ToolCall?
  {
    if tools != [] {
      PickConcat([ToolCall(tools[0])], ToolCalls(tools[1..]), ToolIn);
      PickOne(ToolCall(tools[0]), ToolIn);
      ToolsOfCalls(tools[1..]);
    }
  }

  // At most one row at the front.
  lemma PickFirst<T>(there: bool, x: Item, rest: seq<Item>, f: Item -> Option<T>)
    ensures Pick(Only(there, x) + rest, f) == (if there && f(x).Some? then [f(x).value] else []) + Pick(rest, f)
  {
    PickConcat(Only(there, x), rest, f);
    PickOne(x, f);
  }

  lemma PickBoth<T>(messages: seq<string>, second: bool, x: Item, rest: seq<Item>, f: Item -> Option<T>)
    ensures var prompt := Prompt(messages);
            Pick(Only(messages != [], prompt) + (Only(second, x) + rest), f) ==
            (if messages != [] && f(prompt).Some? then [f(prompt).value] else [])
            + ((if second && f(x).Some? then [f(x).value] else []) + Pick(rest, f))
  {
    hide Pick, Only;
    PickFirst(second, x, rest, f);
    PickFirst(messages != [], Prompt(messages), Only(second, x) + rest, f);
  }

  lemma CompletedEvidence(messages: seq<string>, content: string, tools: seq<Tool>)
    ensures Evidence(RowsOf(Completed(messages, content, tools)), Completed(messages, content, tools))
  {
    RowsInPlace(Completed(messages, content, tools));
    hide Pick, InPlace;
    var rest, x := ToolCalls(tools), Response(content);
    assert RowsOf(Completed(messages, content, tools)) ==
           Only(messages != [], Prompt(messages)) + (Only(content != "", x) + rest);
    hide RowsOf, ToolCalls;
    PickBoth(messages, content != "", x, rest, PromptIn);
    PickBoth(messages, content != "", x, rest, ResponseIn);
    PickBoth(messages, content != "", x, rest, ToolIn);
    PickBoth(messages, content != "", x, rest, ErrorIn);
    PickToolCalls(tools, PromptIn);
    PickToolCalls(tools, ResponseIn);
    PickToolCalls(tools, ErrorIn);
    ToolsOfCalls(tools);
  }

  lemma FailedEvidence(messages: seq<string>, kind: string, message: string)
    ensures Evidence(RowsOf(Failed(messages, kind, message)), Failed(messages, kind, message))
  {
    RowsInPlace(Failed(messages, kind, message));
    hide Pick, InPlace;
    var cut := if |message| > ERROR_CAP then message[..ERROR_CAP] else message;
    var x := ErrorNote(kind, cut);
    assert RowsOf(Failed(messages, kind, message)) == Only(messages != [], Prompt(messages)) + (Only(true, x) + []);
    hide RowsOf;
    PickBoth(messages, true, x, [], PromptIn);
    PickBoth(messages, true, x, [], ResponseIn);
    PickBoth(messages, true, x, [], ToolIn);
    PickBoth(messages, true, x, [], ErrorIn);
    PickNone<seq<string>>(PromptIn);
    PickNone<string>(ResponseIn);
    PickNone<Tool>(ToolIn);
    PickNone<(string, string)>(ErrorIn);
  }

  lemma RowsInPlace(c: Captured)
    ensures InPlace(RowsOf(c))
  {
    if c.Completed? {
      ToolsOfCalls(c.tools);
    }
  }

  /** What a capture offers is the evidence of its call. */
  lemma RowsAreEvidence(c: Captured)
    ensures Evidence(RowsOf(c), c)
  {
    hide Evidence, RowsOf;
    match c
    case Completed(messages, content, tools) => CompletedEvidence(messages, content, tools);
    case Failed(messages, kind, message) => FailedEvidence(messages, kind, message);
  }

  lemma PickNone<T>(f: Item -> Option<T>)
    ensures Pick([], f) == []
  {
  }

  /** "A row per tool call" is offered for a response exactly when the call was not an awaited
      LiteLLM call, or its response has no tool calls. */
  lemma RowPerToolCallIff(api: Api, messages: seq<string>, reply: Reply)
    ensures Pick(RowsOf(CapturedOf(api, messages, reply)), ToolIn) == ToolsIn(reply) <==>
            !api.LiteLLMAwaited? || ToolsIn(reply) == []
  {
    hide RowsOf, ToolsIn, TextIn, Pick, InPlace;
    RowsAreEvidence(CapturedOf(api, messages, reply));
  }
}
