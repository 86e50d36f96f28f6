/** The loop that lets a model call tools (tool_runner.py). */
module ToolRunner {
  import opened Prelude
  import opened Text

  const MAX_TOOL_ITERATIONS := 8

  /** A missing name or id is the empty string. */
  datatype ToolCall = ToolCall(name: string, id: string, args: string)

  datatype Message =
    | Given(text: string)                        // a system or user message of the caller
    | Ai(text: string, toolCalls: seq<ToolCall>)
    | ToolMessage(content: string, toolCallId: string)

  /** One call of `on_tool_call`. */
  datatype Logged = Logged(name: string, args: string, result: string)

  /**
   What the outside answers: the model to its k-th call and the tools to their k-th. An answer of the
   model that is no `Ai` is not an AIMessage.
   */
  datatype World = World(model: (nat, seq<Message>) -> Message, tool: (nat, string, string) -> string)

  /** The conversation and the tool log so far. */
  datatype Talk = Talk(conversation: seq<Message>, logged: seq<Logged>)

  function ToolCallId(call: ToolCall): string {
    if call.id != "" then call.id else call.name
  }

  /** `AIMessage(content=str(response))`, the response's text standing for its `str` */
  function AsAi(response: Message): Message {
    match response
    case Ai(_, _) => response
    case Given(text) => Ai(text, [])
    case ToolMessage(content, _) => Ai(content, [])
  }

  /** The answer is an AI message in any case: the model's own, or one with its text and no tool calls. */
  lemma AnswersAreAi(response: Message)
    ensures AsAi(response).Ai? && (response.Ai? ==> AsAi(response) == response)
    ensures response.Given? ==> AsAi(response) == Ai(response.text, [])
    ensures response.ToolMessage? ==> AsAi(response) == Ai(response.content, [])
  {
  }

  predicate AsksForTools(response: Message) {
    response.Ai? && response.toolCalls != []
  }

  function LimitMessage(maxIterations: int): string {
    "Tool iteration limit reached. The agent stopped after " + Integer(maxIterations)
    + " tool rounds without a final answer."
  }

  /** After the first `n` of the calls. */
  function AfterCalls(w: World, talk: Talk, calls: seq<ToolCall>, n: nat): Talk
    requires n <= |calls|
  {
    if n == 0 then talk else
    var before := AfterCalls(w, talk, calls, n - 1);
    var call := calls[n - 1];
    var result := w.tool(|before.logged|, call.name, call.args);
    Talk(before.conversation + [ToolMessage(result, ToolCallId(call))],
         before.logged + [Logged(call.name, call.args, result)])
  }

  function AfterResponse(w: World, talk: Talk, response: Message): Talk {
    if AsksForTools(response)
    then AfterCalls(w, talk.(conversation := talk.conversation + [response]), response.toolCalls, |response.toolCalls|)
    else talk
  }

  function AfterRounds(w: World, messages: seq<Message>, rounds: nat): Talk
    decreases rounds, 0
  {
    if rounds == 0 then Talk(messages, []) else
    AfterResponse(w, AfterRounds(w, messages, rounds - 1), Response(w, messages, rounds - 1))
  }

  /** The model's answer in round `k`. */
  function Response(w: World, messages: seq<Message>, k: nat): Message
    decreases k, 1
  {
    w.model(k, AfterRounds(w, messages, k).conversation)
  }

  predicate Asks(w: World, messages: seq<Message>, k: nat) {
    AsksForTools(Response(w, messages, k))
  }

  predicate AllAsk(w: World, messages: seq<Message>, rounds: int) {
    forall k :: 0 <= k < rounds ==> Asks(w, messages, k)
  }

  /** Call `k` was sent the conversation after `k` rounds. */
  predicate IsHistory(w: World, messages: seq<Message>, sent: seq<seq<Message>>) {
    forall k :: 0 <= k < |sent| ==> sent[k] == AfterRounds(w, messages, k).conversation
  }

  /** Whether the model can be given tools at all. */
  predicate IsPlain(hasTools: bool, mockLlm: bool) {
    mockLlm || !hasTools
  }

  lemma NextRound(w: World, messages: seq<Message>, k: nat, talk: Talk)
    requires talk == AfterRounds(w, messages, k)
    ensures AfterRounds(w, messages, k + 1) == AfterResponse(w, talk, w.model(k, talk.conversation))
    ensures Asks(w, messages, k) == AsksForTools(w.model(k, talk.conversation))
  {
  }

  /** The inner loop: every call is executed, reported, and answered. */
  method RunToolCalls(w: World, sofar: seq<Message>, reported: seq<Logged>, toolCalls: seq<ToolCall>)
    returns (conversation: seq<Message>, logged: seq<Logged>)
    ensures Talk(conversation, logged) == AfterCalls(w, Talk(sofar, reported), toolCalls, |toolCalls|)
  {
    conversation, logged := sofar, reported;
    for i := 0 to |toolCalls|
      invariant Talk(conversation, logged) == AfterCalls(w, Talk(sofar, reported), toolCalls, i)
    {
      var call := toolCalls[i];
      var result := w.tool(|logged|, call.name, call.args);
      logged := logged + [Logged(call.name, call.args, result)];
      conversation := conversation + [ToolMessage(result, ToolCallId(call))];
    }
  }

  /**
   `invoke_agent_llm`. `sent` lists the conversation of each model call, `logged` the `on_tool_call`
   reports, `atLimit` says whether `on_iteration_limit` was called.
   */
  method InvokeAgentLlm(w: World, messages: seq<Message>, hasTools: bool, mockLlm: bool,
                        maxIterations: int := MAX_TOOL_ITERATIONS)
    returns (answer: Message, sent: seq<seq<Message>>, logged: seq<Logged>, atLimit: bool)
    ensures IsPlain(hasTools, mockLlm) ==>
      sent == [messages] && answer == AsAi(w.model(0, messages)) && logged == [] && !atLimit
    ensures !IsPlain(hasTools, mockLlm) ==>
      && |sent| <= Max(maxIterations, 0)
      && IsHistory(w, messages, sent)
      && (atLimit <==> AllAsk(w, messages, maxIterations))
    ensures !IsPlain(hasTools, mockLlm) && atLimit ==>
      && |sent| == Max(maxIterations, 0)
      && answer == Ai("Tool iteration limit reached. The agent stopped after " + Integer(maxIterations)
                      + " tool rounds without a final answer.", [])
      && logged == AfterRounds(w, messages, |sent|).logged
    ensures !IsPlain(hasTools, mockLlm) && !atLimit ==>
      && |sent| > 0
      && AllAsk(w, messages, |sent| - 1)
      && !Asks(w, messages, |sent| - 1)
      && answer == AsAi(Response(w, messages, |sent| - 1))
      && logged == AfterRounds(w, messages, |sent| - 1).logged
  {
    sent, logged, atLimit := [], [], false;
    if mockLlm || !hasTools {
      sent := [messages];
      answer := AsAi(w.model(0, messages));
      return;
    }
    var conversation := messages;
    var round := 0;
    while round < maxIterations
      invariant 0 <= round == |sent| <= Max(maxIterations, 0)
      invariant Talk(conversation, logged) == AfterRounds(w, messages, round)
      invariant IsHistory(w, messages, sent)
      invariant AllAsk(w, messages, round)
    {
      var response := w.model(round, conversation);
      sent := sent + [conversation];
      if !response.Ai? || response.toolCalls == [] {
        answer := AsAi(response);
        assert !Asks(w, messages, round);
        return;
      }
      NextRound(w, messages, round, Talk(conversation, logged));
      conversation, logged := RunToolCalls(w, conversation + [response], logged, response.toolCalls);
      round := round + 1;
    }
    atLimit := true;
    answer := Ai(LimitMessage(maxIterations), []);
  }

  // ---------------------------------------------------------------- the shape of the conversation

  /** An AI message that asks for tools, and what each of its calls gave. */
  datatype Block = Block(ai: Message, results: seq<string>)

  predicate IsBlock(block: Block) {
    AsksForTools(block.ai) && |block.results| == |block.ai.toolCalls|
  }

  /** The message, then one tool message per call, in call order, under the call's id or its name for want of one. */
  function BlockMessages(block: Block): seq<Message>
    requires IsBlock(block)
  {
    [block.ai] + seq(|block.results|, i requires 0 <= i < |block.results| =>
      var call := block.ai.toolCalls[i];
      ToolMessage(block.results[i], if call.id == "" then call.name else call.id))
  }

  /** The results are what the tools answer, the first of them being asked as number `first`. */
  predicate IsAnswered(w: World, first: nat, block: Block)
    requires IsBlock(block)
  {
    forall i :: 0 <= i < |block.results| ==>
      block.results[i] == w.tool(first + i, block.ai.toolCalls[i].name, block.ai.toolCalls[i].args)
  }

  function BlockLog(block: Block): seq<Logged>
    requires IsBlock(block)
  {
    seq(|block.results|, i requires 0 <= i < |block.results| =>
      Logged(block.ai.toolCalls[i].name, block.ai.toolCalls[i].args, block.results[i]))
  }

  function AllMessages(blocks: seq<Block>): seq<Message>
    requires forall b :: b in blocks ==> IsBlock(b)
  {
    if blocks == [] then [] else AllMessages(blocks[..|blocks| - 1]) + BlockMessages(blocks[|blocks| - 1])
  }

  function AllLogged(blocks: seq<Block>): seq<Logged>
    requires forall b :: b in blocks ==> IsBlock(b)
  {
    if blocks == [] then [] else AllLogged(blocks[..|blocks| - 1]) + BlockLog(blocks[|blocks| - 1])
  }

  /** The first `n` results of a block's calls. */
  function Results(w: World, talk: Talk, calls: seq<ToolCall>, n: nat): seq<string>
    requires n <= |calls|
  {
    seq(n, i requires 0 <= i < n => w.tool(|talk.logged| + i, calls[i].name, calls[i].args))
  }

  lemma {:induction false} CallsAnswered(w: World, talk: Talk, calls: seq<ToolCall>, n: nat)
    requires n <= |calls|
    ensures var after, results := AfterCalls(w, talk, calls, n), Results(w, talk, calls, n);
      && after.conversation
        == talk.conversation + seq(n, i requires 0 <= i < n => ToolMessage(results[i], ToolCallId(calls[i])))
      && after.logged == talk.logged + seq(n, i requires 0 <= i < n => Logged(calls[i].name, calls[i].args, results[i]))
  {
    if n > 0 {
      CallsAnswered(w, talk, calls, n - 1);
    }
  }

  lemma RoundAddsBlock(w: World, talk: Talk, ai: Message) returns (block: Block)
    requires AsksForTools(ai)
    ensures IsBlock(block) && block.ai == ai && IsAnswered(w, |talk.logged|, block)
    ensures AfterResponse(w, talk, ai) == Talk(talk.conversation + BlockMessages(block), talk.logged + BlockLog(block))
  {
    var asked := talk.(conversation := talk.conversation + [ai]);
    var n := |ai.toolCalls|;
    CallsAnswered(w, asked, ai.toolCalls, n);
    block := Block(ai, Results(w, asked, ai.toolCalls, n));
    var after := AfterCalls(w, asked, ai.toolCalls, n);
    assert after.conversation == talk.conversation + BlockMessages(block);
    assert after.logged == talk.logged + BlockLog(block);
  }

  /**
   Every conversation the model is sent is the caller's messages followed by one block per round so far,
   each headed by the model's own answer, with what the tools gave for its calls, and the tool log reports
   the same results.
   */
  lemma ConversationIsBlocks(w: World, messages: seq<Message>, rounds: nat) returns (blocks: seq<Block>)
    requires AllAsk(w, messages, rounds)
    ensures |blocks| == rounds && forall b :: b in blocks ==> IsBlock(b)
    ensures forall k :: 0 <= k < rounds ==> blocks[k].ai == Response(w, messages, k)
    ensures AfterRounds(w, messages, rounds).conversation == messages + AllMessages(blocks)
    ensures AfterRounds(w, messages, rounds).logged == AllLogged(blocks)
    ensures forall k :: 0 <= k < rounds ==> IsAnswered(w, |AfterRounds(w, messages, k).logged|, blocks[k])
  {
    blocks := BlocksOfRounds(w, messages, rounds);
    forall k | 0 <= k < rounds
      ensures blocks[k].ai == Response(w, messages, k)
      ensures IsAnswered(w, |AfterRounds(w, messages, k).logged|, blocks[k])
    {
      assert IsRound(w, messages, blocks[k], k);
    }
  }

  /** What round `k` adds. */
  predicate IsRound(w: World, messages: seq<Message>, block: Block, k: nat) {
    && IsBlock(block) && block.ai == Response(w, messages, k)
    && IsAnswered(w, |AfterRounds(w, messages, k).logged|, block)
  }

  /** The conversation and the log so far consist of these blocks. */
  predicate IsTold(messages: seq<Message>, talk: Talk, blocks: seq<Block>)
    requires forall b :: b in blocks ==> IsBlock(b)
  {
    talk.conversation == messages + AllMessages(blocks) && talk.logged == AllLogged(blocks)
  }

  lemma {:induction false} BlocksOfRounds(w: World, messages: seq<Message>, rounds: nat) returns (blocks: seq<Block>)
    requires AllAsk(w, messages, rounds)
    ensures |blocks| == rounds && forall b :: b in blocks ==> IsBlock(b)
    ensures forall k :: 0 <= k < rounds ==> IsRound(w, messages, blocks[k], k)
    ensures IsTold(messages, AfterRounds(w, messages, rounds), blocks)
  {
    blocks := [];
    if rounds > 0 {
      var init := BlocksOfRounds(w, messages, rounds - 1);
      assert Asks(w, messages, rounds - 1);
      var last := LastRound(w, messages, rounds - 1);
      blocks := init + [last];
      OneMoreTold(messages, AfterRounds(w, messages, rounds - 1), AfterRounds(w, messages, rounds), init, last);
    }
  }

  lemma OneMoreTold(messages: seq<Message>, before: Talk, after: Talk, init: seq<Block>, last: Block)
    requires (forall b :: b in init ==> IsBlock(b)) && IsBlock(last) && IsTold(messages, before, init)
    requires after == Talk(before.conversation + BlockMessages(last), before.logged + BlockLog(last))
    ensures IsTold(messages, after, init + [last])
  {
    OneMoreBlock(init, last);
  }

  lemma LastRound(w: World, messages: seq<Message>, k: nat) returns (block: Block)
    requires Asks(w, messages, k)
    ensures IsRound(w, messages, block, k)
    ensures var before := AfterRounds(w, messages, k);
      AfterRounds(w, messages, k + 1)
      == Talk(before.conversation + BlockMessages(block), before.logged + BlockLog(block))
  {
    block := RoundAddsBlock(w, AfterRounds(w, messages, k), Response(w, messages, k));
  }

  lemma OneMoreBlock(init: seq<Block>, last: Block)
    requires (forall b :: b in init ==> IsBlock(b)) && IsBlock(last)
    ensures AllMessages(init + [last]) == AllMessages(init) + BlockMessages(last)
    ensures AllLogged(init + [last]) == AllLogged(init) + BlockLog(last)
  {
    var blocks := init + [last];
    assert blocks[..|blocks| - 1] == init && blocks[|blocks| - 1] == last;
  }
}
