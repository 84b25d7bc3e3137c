/**
 The operations assistant's tool-calling loop (internal/ai_assistant.go): a language model answers
 in rounds, and the tools it asks for are executed under a write gate.
 */
module Assistant {
  import opened Wrappers
  import opened GoStrings

  const MAX_ROUNDS := 8
  const RESULT_MAX := 6000

  const READ_ONLY_REPLY := "当前为只读模式，写操作已拒绝；如需执行请在助手界面切换为「运维模式」。"
  const DEFERRED_REPLY := "[操作已暂缓] 该写操作尚未执行，需要用户在确认弹窗中点击确认后才会发生。绝对不要声称操作已成功。"
  const CLIPPED := "\n…（结果过长已截断）"

  datatype Tool = Tool(name: string, write: bool)

  datatype ToolCall = ToolCall(id: string, name: string, arguments: string)

  datatype Role = System | User | AssistantRole | ToolRole

  datatype Message = Message(role: Role, content: string, toolCalls: seq<ToolCall>, toolCallId: string)

  datatype Trace = Trace(name: string, arguments: string, result: string, write: bool)

  datatype Action = Action(tool: string, arguments: string, result: string)

  // One execution of a tool: what ran, and what it returned.
  datatype Ran = Ran(tool: Tool, arguments: string, result: Result<string, string>)

  // A tool's effect on the world W; what a chat leaves behind.
  type Exec<!W> = (Tool, string, W) -> (W, Result<string, string>)

  datatype Effects<W> = Effects(world: W, ran: seq<Ran>, actions: seq<Action>, audits: seq<Action>)

  // One answer of the language model
  datatype Reply = Failed(error: string) | Answer(content: string, toolCalls: seq<ToolCall>)

  // ---------- executing one tool call ----------

  function Find(tools: seq<Tool>, name: string): Option<Tool> {
    if tools == [] then None else if tools[0].name == name then Some(tools[0]) else Find(tools[1..], name)
  }

  datatype Verdict = Unknown | ReadOnly(tool: Tool) | Deferred(tool: Tool) | Permitted(tool: Tool)

  function Judge(tools: seq<Tool>, operate: bool, confirm: bool, call: ToolCall): Verdict {
    match Find(tools, call.name)
    case None => Unknown
    case Some(t) =>
      if t.write && !operate then ReadOnly(t) else if t.write && !confirm then Deferred(t) else Permitted(t)
  }

  function ClipResult(res: string): string {
    if Utf8Length(res) > RESULT_MAX then CutBytes(res, RESULT_MAX) + CLIPPED else res
  }

  // truncateErrMessage
  function ClipError(s: string): string { if Utf8Length(s) <= 300 then s else CutBytes(s, 300) + "…" }

  function ResultText(r: Result<string, string>): string {
    match r
    case Err(e) => "执行失败: " + ClipError(e)
    case Ok(res) => ClipResult(res)
  }

  function Text(v: Verdict, call: ToolCall, r: Result<string, string>): string {
    match v
    case Unknown => "未知工具: " + call.name
    case ReadOnly(_) => READ_ONLY_REPLY
    case Deferred(_) => DEFERRED_REPLY
    case Permitted(_) => ResultText(r)
  }

  // The effects of one call: only a permitted tool runs, and only a successful write is recorded.
  function Perform<W>(exec: Exec<W>, v: Verdict, call: ToolCall, fx: Effects<W>): (Effects<W>, string) {
    if !v.Permitted? then (fx, Text(v, call, Err("")))
    else
      var (world, r) := exec(v.tool, call.arguments, fx.world);
      var done := Effects(world, fx.ran + [Ran(v.tool, call.arguments, r)], fx.actions, fx.audits);
      if v.tool.write && r.Ok? then
        var action := Action(v.tool.name, call.arguments, ClipResult(r.value));
        (done.(actions := fx.actions + [action], audits := fx.audits + [action]), ResultText(r))
      else (done, ResultText(r))
  }

  // ---------- the conversation as a function ----------

  // One remembered line of an earlier chat, as the request carries it
  datatype Past = Past(role: string, content: string)

  // The model may answer anything at all in each round.
  datatype Env<!W> = Env(model: (nat, seq<Message>) -> Reply, exec: Exec<W>, tools: seq<Tool>, operate: bool, confirm: bool)

  datatype End = Talking | Broken(error: string) | Replied(text: string)

  datatype Talk<W> = Talk(msgs: seq<Message>, trace: seq<Trace>, fx: Effects<W>, rounds: nat, end: End)

  // What is remembered of one line
  function Remember(h: Past): seq<Message> {
    var role := TrimSpace(h.role);
    if (role != "user" && role != "assistant") || TrimSpace(h.content) == "" then []
    else [Message(if role == "user" then User else AssistantRole, h.content, [], "")]
  }

  function Remembered(history: seq<Past>): seq<Message> {
    if history == [] then [] else Remembered(history[..|history| - 1]) + Remember(history[|history| - 1])
  }

  function Opening(prompt: string, history: seq<Past>, question: string): seq<Message> {
    [Message(System, prompt, [], "")] + Remembered(history) + [Message(User, question, [], "")]
  }

  function CallOne<W>(env: Env<W>, st: Talk<W>, call: ToolCall): Talk<W> {
    var v := Judge(env.tools, env.operate, env.confirm, call);
    var (fx, text) := Perform(env.exec, v, call, st.fx);
    st.(fx := fx, msgs := st.msgs + [Message(ToolRole, text, [], call.id)],
        trace := st.trace + [Trace(call.name, call.arguments, text, !v.Unknown? && v.tool.write)])
  }

  function CallAll<W>(env: Env<W>, st: Talk<W>, calls: seq<ToolCall>): Talk<W> {
    if calls == [] then st
    else CallOne(env, CallAll(env, st, calls[..|calls| - 1]), calls[|calls| - 1])
  }

  function Round<W>(env: Env<W>, st: Talk<W>): Talk<W> {
    match env.model(st.rounds, st.msgs)
    case Failed(e) => st.(rounds := st.rounds + 1, end := Broken(e))
    case Answer(content, calls) =>
      if calls == [] then st.(rounds := st.rounds + 1, end := Replied(TrimSpace(content)))
      else CallAll(env, st.(rounds := st.rounds + 1, msgs := st.msgs + [Message(AssistantRole, content, calls, "")]), calls)
  }

  function Rounds<W>(env: Env<W>, st: Talk<W>, left: nat): Talk<W>
    decreases left
  {
    if left == 0 || st.end != Talking then st else Rounds(env, Round(env, st), left - 1)
  }

  // ---------- the loops of the code ----------

  method OpeningMessages(prompt: string, history: seq<Past>, question: string) returns (msgs: seq<Message>)
    ensures msgs == Opening(prompt, history, question)
  {
    hide TrimSpace;
    msgs := [Message(System, prompt, [], "")];
    for i := 0 to |history|
      invariant msgs == [Message(System, prompt, [], "")] + Remembered(history[..i])
    {
      assert history[..i + 1][..i] == history[..i];
      var role := TrimSpace(history[i].role);
      if role != "user" && role != "assistant" {
        continue;
      }
      if TrimSpace(history[i].content) == "" {
        continue;
      }
      msgs := msgs + [Message(if role == "user" then User else AssistantRole, history[i].content, [], "")];
    }
    assert history[..|history|] == history;
    msgs := msgs + [Message(User, question, [], "")];
  }

  class Session<W> {
    var world: W
    var ran: seq<Ran>
    var actions: seq<Action>
    var audits: seq<Action>

    constructor (world: W)
      ensures View() == Effects(world, [], [], [])
    {
      this.world, ran, actions, audits := world, [], [], [];
    }

    ghost function View(): Effects<W>
      reads this
    {
      Effects(world, ran, actions, audits)
    }

    // aiAssistantExecuteTool
    method ExecuteTool(exec: Exec<W>, tools: seq<Tool>, operate: bool, confirm: bool, call: ToolCall)
      returns (trace: Trace)
      modifies this
      ensures var v := Judge(tools, operate, confirm, call);
        View() == Perform(exec, v, call, old(View())).0 &&
        trace == Trace(call.name, call.arguments, Perform(exec, v, call, old(View())).1, !v.Unknown? && v.tool.write)
    {
      hide ClipResult, ClipError;
      var tool: Option<Tool> := None;
      for i := 0 to |tools|
        invariant tool == None && Find(tools, call.name) == Find(tools[i..], call.name)
      {
        assert tools[i..][1..] == tools[i + 1..];
        if tools[i].name == call.name {
          tool := Some(tools[i]);
          break;
        }
      }
      if tool.None? {
        return Trace(call.name, call.arguments, "未知工具: " + call.name, false);
      }
      var t := tool.value;
      if t.write && !operate {
        return Trace(call.name, call.arguments, READ_ONLY_REPLY, t.write);
      }
      if t.write && !confirm {
        return Trace(call.name, call.arguments, DEFERRED_REPLY, t.write);
      }
      var (w, r) := exec(t, call.arguments, world);
      world := w;
      ran := ran + [Ran(t, call.arguments, r)];
      if r.Err? {
        return Trace(call.name, call.arguments, "执行失败: " + ClipError(r.error), t.write);
      }
      var res := ClipResult(r.value);
      if t.write {
        actions := actions + [Action(t.name, call.arguments, res)];
        audits := audits + [Action(t.name, call.arguments, res)];
      }
      return Trace(call.name, call.arguments, res, t.write);
    }

    // One round's tool calls, each answered by a tool message
    method CallTools(env: Env<W>, msgs: seq<Message>, trace: seq<Trace>, rounds: nat, calls: seq<ToolCall>)
      returns (msgs': seq<Message>, trace': seq<Trace>)
      modifies this
      ensures Talk(msgs', trace', View(), rounds, Talking) ==
        CallAll(env, Talk(msgs, trace, old(View()), rounds, Talking), calls)
    {
      hide Perform, Judge, View;
      msgs', trace' := msgs, trace;
      for i := 0 to |calls|
        invariant Talk(msgs', trace', View(), rounds, Talking) ==
          CallAll(env, Talk(msgs, trace, old(View()), rounds, Talking), calls[..i])
      {
        assert calls[..i + 1][..i] == calls[..i];
        var t := ExecuteTool(env.exec, env.tools, env.operate, env.confirm, calls[i]);
        trace' := trace' + [t];
        msgs' := msgs' + [Message(ToolRole, t.result, [], calls[i].id)];
      }
      assert calls[..|calls|] == calls;
    }

    // The round loop of handleOpsAIAssistantChat
    method Chat(env: Env<W>, prompt: string, history: seq<Past>, question: string)
      returns (msgs: seq<Message>, trace: seq<Trace>, rounds: nat, end: End)
      modifies this
      ensures Talk(msgs, trace, View(), rounds, end) ==
        Rounds(env, Talk(Opening(prompt, history, question), [], old(View()), 0, Talking), MAX_ROUNDS)
    {
      hide CallAll, View, TrimSpace;
      msgs := OpeningMessages(prompt, history, question);
      trace, rounds, end := [], 0, Talking;
      ghost var start := Talk(msgs, trace, View(), rounds, end);
      while rounds < MAX_ROUNDS
        invariant rounds <= MAX_ROUNDS && end == Talking
        invariant Rounds(env, start, MAX_ROUNDS) ==
          Rounds(env, Talk(msgs, trace, View(), rounds, end), MAX_ROUNDS - rounds)
      {
        var reply := env.model(rounds, msgs);
        rounds := rounds + 1;
        if reply.Failed? {
          end := Broken(reply.error);
          return;
        }
        if reply.toolCalls == [] {
          end := Replied(TrimSpace(reply.content));
          return;
        }
        msgs := msgs + [Message(AssistantRole, reply.content, reply.toolCalls, "")];
        msgs, trace := CallTools(env, msgs, trace, rounds, reply.toolCalls);
      }
    }
  }

  // ---------- what every conversation keeps ----------

  // The tool messages that answer these calls one for one
  ghost predicate Answers(calls: seq<ToolCall>, msgs: seq<Message>) {
    |calls| == |msgs| &&
    forall i :: 0 <= i < |calls| ==> msgs[i].role == ToolRole && msgs[i].toolCallId == calls[i].id && msgs[i].toolCalls == []
  }

  // The chat-completion protocol: the calls of an assistant message are answered at once and in
  // order, and a tool message appears nowhere else.
  ghost predicate Paired(msgs: seq<Message>)
    decreases |msgs|
  {
    msgs == [] ||
    (var k := |msgs[0].toolCalls|;
     msgs[0].role != ToolRole && (k > 0 ==> msgs[0].role == AssistantRole) && k < |msgs| &&
     Answers(msgs[0].toolCalls, msgs[1..k + 1]) && Paired(msgs[k + 1..]))
  }

  // Every call the model asked for, in order
  function Requested(msgs: seq<Message>): seq<ToolCall> {
    if msgs == [] then [] else Requested(msgs[..|msgs| - 1]) + msgs[|msgs| - 1].toolCalls
  }

  function ToolContents(msgs: seq<Message>): seq<string> {
    if msgs == [] then []
    else ToolContents(msgs[..|msgs| - 1]) + if msgs[|msgs| - 1].role == ToolRole then [msgs[|msgs| - 1].content] else []
  }

  function Results(trace: seq<Trace>): (r: seq<string>)
    ensures |r| == |trace|
  {
    if trace == [] then [] else Results(trace[..|trace| - 1]) + [trace[|trace| - 1].result]
  }

  // A tool together with the arguments it was run on
  datatype Job = Job(tool: Tool, arguments: string)

  // The calls the write gate lets through
  function Allowed<W>(env: Env<W>, calls: seq<ToolCall>): seq<Job> {
    if calls == [] then []
    else
      var last := calls[|calls| - 1];
      var v := Judge(env.tools, env.operate, env.confirm, last);
      Allowed(env, calls[..|calls| - 1]) + if v.Permitted? then [Job(v.tool, last.arguments)] else []
  }

  function Jobs(ran: seq<Ran>): seq<Job> {
    if ran == [] then []
    else Jobs(ran[..|ran| - 1]) + [Job(ran[|ran| - 1].tool, ran[|ran| - 1].arguments)]
  }

  function SuccessfulWrites(ran: seq<Ran>): seq<Action> {
    if ran == [] then []
    else
      var last := ran[|ran| - 1];
      SuccessfulWrites(ran[..|ran| - 1]) +
      if last.tool.write && last.result.Ok? then [Action(last.tool.name, last.arguments, ClipResult(last.result.value))] else []
  }

  ghost predicate Gated<W>(env: Env<W>, ran: seq<Ran>) {
    forall i :: 0 <= i < |ran| ==> ran[i].tool in env.tools && (ran[i].tool.write ==> env.operate && env.confirm)
  }

  // What holds of the tools run so far and of the record kept of them
  ghost predicate Kept<W>(env: Env<W>, fx: Effects<W>) {
    Gated(env, fx.ran) && fx.actions == SuccessfulWrites(fx.ran) && fx.audits == SuccessfulWrites(fx.ran)
  }

  lemma {:induction false} FindsAMember(tools: seq<Tool>, name: string)
    ensures Find(tools, name).Some? ==> Find(tools, name).value in tools && Find(tools, name).value.name == name
    ensures Find(tools, name).None? ==> forall t :: t in tools ==> t.name != name
  {
    if tools != [] { FindsAMember(tools[1..], name); }
  }

  // One call keeps the gate and the record, and runs exactly what the gate allows.
  lemma CallOneKeeps<W>(env: Env<W>, st: Talk<W>, call: ToolCall)
    requires Kept(env, st.fx)
    ensures Kept(env, CallOne(env, st, call).fx)
    ensures Jobs(CallOne(env, st, call).fx.ran) == Jobs(st.fx.ran) + Allowed(env, [call])
  {
    hide ClipResult, ClipError, Find;
    FindsAMember(env.tools, call.name);
    var v := Judge(env.tools, env.operate, env.confirm, call);
    var after := CallOne(env, st, call).fx;
    assert [call][..0] == [];
    if v.Permitted? {
      assert after.ran[..|after.ran| - 1] == st.fx.ran;
    }
  }

  // The calls of one round keep the record and run exactly what the gate allows.
  lemma {:induction false} CallAllKeeps<W>(env: Env<W>, st: Talk<W>, calls: seq<ToolCall>)
    requires Kept(env, st.fx)
    ensures var after := CallAll(env, st, calls);
      Kept(env, after.fx) && after.rounds == st.rounds && after.end == st.end &&
      Jobs(after.fx.ran) == Jobs(st.fx.ran) + Allowed(env, calls)
  {
    hide Kept, Perform, Judge, Jobs;
    if calls != [] {
      var last := calls[|calls| - 1];
      CallAllKeeps(env, st, calls[..|calls| - 1]);
      CallOneKeeps(env, CallAll(env, st, calls[..|calls| - 1]), last);
      assert [last][..0] == [];
    }
  }

  lemma NoContents()
    ensures ToolContents([]) == []
  {
  }

  lemma CallOneAnswers<W>(env: Env<W>, st: Talk<W>, call: ToolCall, told: seq<Message>) returns (answer: Message)
    ensures CallOne(env, st, call).msgs == st.msgs + [answer]
    ensures answer.role == ToolRole && answer.toolCallId == call.id && answer.toolCalls == []
    ensures Results(CallOne(env, st, call).trace) == Results(st.trace) + [answer.content]
    ensures ToolContents(told + [answer]) == ToolContents(told) + [answer.content]
  {
    hide Perform, Judge;
    var after := CallOne(env, st, call);
    answer := after.msgs[|after.msgs| - 1];
    assert after.trace[..|after.trace| - 1] == st.trace;
    assert (told + [answer])[..|told|] == told;
  }

  // The calls of one round are answered one for one, and traced one for one.
  lemma {:induction false} CallAllAnswers<W>(env: Env<W>, st: Talk<W>, calls: seq<ToolCall>) returns (answers: seq<Message>)
    ensures CallAll(env, st, calls).msgs == st.msgs + answers && Answers(calls, answers)
    ensures Results(CallAll(env, st, calls).trace) == Results(st.trace) + ToolContents(answers)
  {
    hide CallOne, Results, ToolContents;
    answers := [];
    NoContents();
    if calls != [] {
      var before := CallAll(env, st, calls[..|calls| - 1]);
      var told := CallAllAnswers(env, st, calls[..|calls| - 1]);
      var answer := CallOneAnswers(env, before, calls[|calls| - 1], told);
      answers := told + [answer];
    }
  }

  lemma {:induction false} PairedAppend(a: seq<Message>, b: seq<Message>)
    requires Paired(a) && Paired(b)
    ensures Paired(a + b)
    decreases |a|
  {
    if a == [] {
      assert a + b == b;
    } else {
      hide Answers;
      var k := |a[0].toolCalls|;
      PairedAppend(a[k + 1..], b);
      var ab := a + b;
      assert ab[0] == a[0];
      assert ab[1..k + 1] == a[1..k + 1];
      assert ab[k + 1..] == a[k + 1..] + b;
    }
  }

  lemma {:induction false} RequestedAppend(a: seq<Message>, b: seq<Message>)
    ensures Requested(a + b) == Requested(a) + Requested(b)
    ensures ToolContents(a + b) == ToolContents(a) + ToolContents(b)
  {
    if b == [] {
      assert a + b == a;
    } else {
      RequestedAppend(a, b[..|b| - 1]);
      assert (a + b)[..|a + b| - 1] == a + b[..|b| - 1];
    }
  }

  lemma {:induction false} AllowedAppend<W>(env: Env<W>, a: seq<ToolCall>, b: seq<ToolCall>)
    ensures Allowed(env, a + b) == Allowed(env, a) + Allowed(env, b)
  {
    hide Judge;
    if b == [] {
      assert a + b == a;
    } else {
      AllowedAppend(env, a, b[..|b| - 1]);
      assert (a + b)[..|a + b| - 1] == a + b[..|b| - 1];
    }
  }

  // Messages with no calls and no tool answers, as a chat opens with
  ghost predicate Plain(msgs: seq<Message>) {
    forall i :: 0 <= i < |msgs| ==> msgs[i].role != ToolRole && msgs[i].toolCalls == []
  }

  lemma {:induction false} PlainIsPaired(msgs: seq<Message>)
    requires Plain(msgs)
    ensures Paired(msgs)
    decreases |msgs|
  {
    if msgs != [] {
      PlainIsPaired(msgs[1..]);
      assert msgs[1..0 + 1] == [] && msgs[0 + 1..] == msgs[1..];
    }
  }

  lemma {:induction false} PlainIsQuiet(msgs: seq<Message>)
    requires Plain(msgs)
    ensures Requested(msgs) == [] && ToolContents(msgs) == []
  {
    if msgs != [] { PlainIsQuiet(msgs[..|msgs| - 1]); }
  }

  lemma {:induction false} RememberedIsPlain(history: seq<Past>)
    ensures Plain(Remembered(history))
  {
    hide TrimSpace;
    if history != [] { RememberedIsPlain(history[..|history| - 1]); }
  }

  lemma {:induction false} AnswersRequestNothing(calls: seq<ToolCall>, answers: seq<Message>)
    requires Answers(calls, answers)
    ensures Requested(answers) == []
  {
    if answers != [] {
      AnswersRequestNothing(calls[..|calls| - 1], answers[..|answers| - 1]);
    }
  }

  // Everything a chat promises of its state between rounds
  ghost predicate Sound<W>(env: Env<W>, st: Talk<W>) {
    Kept(env, st.fx) && Paired(st.msgs) &&
    Results(st.trace) == ToolContents(st.msgs) &&
    Jobs(st.fx.ran) == Allowed(env, Requested(st.msgs))
  }

  lemma RoundKeeps<W>(env: Env<W>, st: Talk<W>)
    requires Sound(env, st)
    ensures Sound(env, Round(env, st)) && Round(env, st).rounds == st.rounds + 1
    ensures st.msgs <= Round(env, st).msgs
  {
    hide Kept, CallAll, Allowed, Answers, Paired, Requested, ToolContents, TrimSpace, Jobs, Results;
    var reply := env.model(st.rounds, st.msgs);
    if reply.Answer? && reply.toolCalls != [] {
      var calls, head := reply.toolCalls, Message(AssistantRole, reply.content, reply.toolCalls, "");
      var asked := st.(rounds := st.rounds + 1, msgs := st.msgs + [head]);
      CallAllKeeps(env, asked, calls);
      var after := CallAll(env, asked, calls);
      var answers := CallAllAnswers(env, asked, calls);
      assert after.msgs == st.msgs + ([head] + answers);
      TurnIsPaired(head, answers);
      PairedAppend(st.msgs, [head] + answers);
      RequestedAppend(st.msgs, [head] + answers);
      AllowedAppend(env, Requested(st.msgs), calls);
    }
  }

  lemma TurnIsPaired(head: Message, answers: seq<Message>)
    requires head.role == AssistantRole && Answers(head.toolCalls, answers)
    ensures Paired([head] + answers) && Requested([head] + answers) == head.toolCalls
    ensures ToolContents([head] + answers) == ToolContents(answers)
  {
    var turn := [head] + answers;
    assert turn[1..] == answers && turn[|turn|..] == [];
    RequestedAppend([head], answers);
    AnswersRequestNothing(head.toolCalls, answers);
    assert [head][..0] == [];
  }

  lemma {:induction false} RoundsKeep<W>(env: Env<W>, st: Talk<W>, left: nat)
    requires Sound(env, st)
    ensures Sound(env, Rounds(env, st, left)) && Rounds(env, st, left).rounds <= st.rounds + left
    ensures Rounds(env, st, left).end == Talking ==> Rounds(env, st, left).rounds == st.rounds + left
    ensures st.msgs <= Rounds(env, st, left).msgs
    decreases left
  {
    hide Sound, Round;
    if left > 0 && st.end == Talking {
      RoundKeeps(env, st);
      RoundsKeep(env, Round(env, st), left - 1);
    }
  }

  lemma OpeningIsSound<W>(env: Env<W>, prompt: string, history: seq<Past>, question: string, world: W)
    ensures Sound(env, Talk(Opening(prompt, history, question), [], Effects(world, [], [], []), 0, Talking))
  {
    hide Paired, Requested, ToolContents, Remembered;
    RememberedIsPlain(history);
    PlainIsPaired(Opening(prompt, history, question));
    PlainIsQuiet(Opening(prompt, history, question));
  }

  // The whole chat, whatever the model answers: writes run only when the gate is open, the record
  // is the successful writes, the transcript obeys the protocol, and the rounds are bounded.
  lemma ChatIsSafe<W>(env: Env<W>, prompt: string, history: seq<Past>, question: string, world: W)
    ensures var start := Talk(Opening(prompt, history, question), [], Effects(world, [], [], []), 0, Talking);
      var st := Rounds(env, start, MAX_ROUNDS);
      Gated(env, st.fx.ran) &&
      st.fx.actions == SuccessfulWrites(st.fx.ran) && st.fx.audits == SuccessfulWrites(st.fx.ran) &&
      Jobs(st.fx.ran) == Allowed(env, Requested(st.msgs)) &&
      Paired(st.msgs) && Results(st.trace) == ToolContents(st.msgs) &&
      start.msgs <= st.msgs && st.rounds <= 8 && (st.end == Talking ==> st.rounds == 8)
  {
    hide Paired, Rounds, Gated, SuccessfulWrites, Jobs, Allowed, Requested, Results, ToolContents, Opening;
    var start := Talk(Opening(prompt, history, question), [], Effects(world, [], [], []), 0, Talking);
    OpeningIsSound(env, prompt, history, question, world);
    RoundsKeep(env, start, MAX_ROUNDS);
  }

  // ---------- what each call, round and opening is ----------

  // Tool i is the first one registered under the name; i == |tools| when there is none.
  predicate FirstNamed(tools: seq<Tool>, name: string, i: nat) {
    i <= |tools| && (i < |tools| ==> tools[i].name == name) && forall j :: 0 <= j < i ==> tools[j].name != name
  }

  lemma {:induction false} FindIsFirst(tools: seq<Tool>, name: string, i: nat)
    requires FirstNamed(tools, name, i)
    ensures Find(tools, name) == if i < |tools| then Some(tools[i]) else None
  {
    if i > 0 { FindIsFirst(tools[1..], name, i - 1); }
  }

  function Clipped(s: string, bytes: nat, mark: string): string {
    if Utf8Length(s) <= bytes then s else CutBytes(s, bytes) + mark
  }

  lemma CallIsTraced<W>(env: Env<W>, st: Talk<W>, call: ToolCall, i: nat)
    requires FirstNamed(env.tools, call.name, i)
    ensures var after := CallOne(env, st, call);
      |after.trace| == |st.trace| + 1 &&
      var text := after.trace[|st.trace|].result;
      after.msgs == st.msgs + [Message(ToolRole, text, [], call.id)] &&
      after.trace == st.trace + [Trace(call.name, call.arguments, text, i < |env.tools| && env.tools[i].write)]
  {
    hide Perform, Find;
    FindIsFirst(env.tools, call.name, i);
  }

  // A tool that is not registered, and a write without both switches, is answered with a notice, and
  // nothing runs.
  lemma CallIsRefused<W>(env: Env<W>, st: Talk<W>, call: ToolCall, i: nat)
    requires FirstNamed(env.tools, call.name, i)
    requires i == |env.tools| || (env.tools[i].write && !(env.operate && env.confirm))
    ensures var after := CallOne(env, st, call);
      after.fx == st.fx && |after.trace| == |st.trace| + 1 &&
      after.trace[|st.trace|].result ==
        if i == |env.tools| then "未知工具: " + call.name
        else if !env.operate then "当前为只读模式，写操作已拒绝；如需执行请在助手界面切换为「运维模式」。"
        else "[操作已暂缓] 该写操作尚未执行，需要用户在确认弹窗中点击确认后才会发生。绝对不要声称操作已成功。"
  {
    hide ResultText, Find;
    FindIsFirst(env.tools, call.name, i);
  }

  // Every other call runs its tool once on the arguments given, passes on the result clipped, and
  // records a write that succeeded.
  lemma CallIsRun<W>(env: Env<W>, st: Talk<W>, call: ToolCall, i: nat)
    requires FirstNamed(env.tools, call.name, i)
    requires i < |env.tools| && (env.tools[i].write ==> env.operate && env.confirm)
    ensures var tool, after := env.tools[i], CallOne(env, st, call);
      var (world, r) := env.exec(tool, call.arguments, st.fx.world);
      |after.trace| == |st.trace| + 1 &&
      var text := after.trace[|st.trace|].result;
      after.fx.world == world && after.fx.ran == st.fx.ran + [Ran(tool, call.arguments, r)] &&
      (r.Ok? ==> text == Clipped(r.value, 6000, "\n…（结果过长已截断）")) &&
      (r.Err? ==> text == "执行失败: " + Clipped(r.error, 300, "…")) &&
      after.fx.actions == st.fx.actions + if tool.write && r.Ok? then [Action(tool.name, call.arguments, text)] else []
  {
    hide Find, Utf8Length, CutBytes;
    FindIsFirst(env.tools, call.name, i);
    assert st.fx.actions + [] == st.fx.actions;
  }

  // A round asks the model once. A failure or an answer without calls ends the chat; calls go on
  // behind the assistant's message.
  lemma RoundIs<W>(env: Env<W>, st: Talk<W>)
    ensures var reply, after := env.model(st.rounds, st.msgs), Round(env, st);
      (reply.Failed? ==> after == st.(rounds := st.rounds + 1, end := Broken(reply.error))) &&
      (reply.Answer? && reply.toolCalls == [] ==>
        after == st.(rounds := st.rounds + 1, end := Replied(TrimSpace(reply.content)))) &&
      (reply.Answer? && reply.toolCalls != [] ==>
        after.end == st.end && |after.msgs| == |st.msgs| + 1 + |reply.toolCalls| &&
        after.msgs[|st.msgs|] == Message(AssistantRole, reply.content, reply.toolCalls, ""))
  {
    hide CallOne, TrimSpace;
    var reply := env.model(st.rounds, st.msgs);
    if reply.Answer? && reply.toolCalls != [] {
      var head := Message(AssistantRole, reply.content, reply.toolCalls, "");
      var asked := st.(rounds := st.rounds + 1, msgs := st.msgs + [head]);
      var answers := CallAllAnswers(env, asked, reply.toolCalls);
      CallAllTalks(env, asked, reply.toolCalls);
    }
  }

  lemma {:induction false} CallAllTalks<W>(env: Env<W>, st: Talk<W>, calls: seq<ToolCall>)
    ensures CallAll(env, st, calls).end == st.end && CallAll(env, st, calls).rounds == st.rounds
  {
    hide Perform, Judge;
    if calls != [] { CallAllTalks(env, st, calls[..|calls| - 1]); }
  }

  // Of the history, user and assistant lines with some content are remembered as they were.
  lemma {:induction false} RememberedAppend(a: seq<Past>, b: seq<Past>)
    ensures Remembered(a + b) == Remembered(a) + Remembered(b)
  {
    hide Remember;
    if b == [] {
      assert a + b == a;
    } else {
      RememberedAppend(a, b[..|b| - 1]);
      assert (a + b)[..|a + b| - 1] == a + b[..|b| - 1];
    }
  }

  lemma RememberedOne(h: Past)
    ensures TrimSpace(h.role) == "user" && TrimSpace(h.content) != "" ==> Remembered([h]) == [Message(User, h.content, [], "")]
    ensures TrimSpace(h.role) == "assistant" && TrimSpace(h.content) != "" ==>
      Remembered([h]) == [Message(AssistantRole, h.content, [], "")]
    ensures (TrimSpace(h.role) != "user" && TrimSpace(h.role) != "assistant") || TrimSpace(h.content) == "" ==> Remembered([h]) == []
  {
    hide TrimSpace;
    assert [h][..0] == [];
    assert "user" != "assistant" by { assert |"user"| != |"assistant"|; }
  }

  // A chat opens with the prompt and ends its opening with the question.
  lemma OpeningIs(prompt: string, history: seq<Past>, question: string)
    ensures var msgs := Opening(prompt, history, question);
      |msgs| >= 2 && msgs[0] == Message(System, prompt, [], "") && msgs[|msgs| - 1] == Message(User, question, [], "") &&
      msgs[1..|msgs| - 1] == Remembered(history)
  {
    hide Remembered;
  }

  // ---------- read-only chats ----------

  ghost predicate ReadsAreHarmless<W(!new)>(env: Env<W>) {
    forall t: Tool, a: string, w: W :: !t.write ==> env.exec(t, a, w).0 == w
  }

  lemma {:induction false} CallAllReadsOnly<W(!new)>(env: Env<W>, st: Talk<W>, calls: seq<ToolCall>)
    requires ReadsAreHarmless(env) && !(env.operate && env.confirm)
    ensures CallAll(env, st, calls).fx.world == st.fx.world && CallAll(env, st, calls).fx.actions == st.fx.actions
  {
    hide Find, ClipResult, ClipError;
    if calls != [] { CallAllReadsOnly(env, st, calls[..|calls| - 1]); }
  }

  // Without both switches nothing changes, whatever tools are registered and whatever the model says.
  lemma {:induction false} ClosedGateChangesNothing<W(!new)>(env: Env<W>, st: Talk<W>, left: nat)
    requires ReadsAreHarmless(env) && !(env.operate && env.confirm)
    ensures Rounds(env, st, left).fx.world == st.fx.world && Rounds(env, st, left).fx.actions == st.fx.actions
    decreases left
  {
    hide CallAll, ReadsAreHarmless, TrimSpace;
    if left > 0 && st.end == Talking {
      var reply := env.model(st.rounds, st.msgs);
      if reply.Answer? && reply.toolCalls != [] {
        var head := Message(AssistantRole, reply.content, reply.toolCalls, "");
        CallAllReadsOnly(env, st.(rounds := st.rounds + 1, msgs := st.msgs + [head]), reply.toolCalls);
      }
      ClosedGateChangesNothing(env, Round(env, st), left - 1);
    }
  }

  // ---------- the registry ----------

  // aiAssistantToolRegistry with the platform and identity tools it always appends
  function Registry(operate: bool): seq<Tool> {
    [Tool("k8s_list_pods", false), Tool("k8s_get_pod_logs", false), Tool("k8s_list_deployments", false),
     Tool("k8s_list_nodes", false), Tool("k8s_list_events", false), Tool("prom_instant_query", false),
     Tool("vmlog_query", false), Tool("inspection_latest_report", false)] +
    [Tool("k8s_apply_yaml", true), Tool("k8s_delete_resource", true), Tool("prom_range_query", false),
     Tool("app_center_overview", false), Tool("vc_list_vms", false), Tool("vc_vm_power", true)] +
    [Tool("headscale_list_users", false), Tool("authentik_list_users", false), Tool("headscale_list_preauth_keys", false)] +
    if operate then
      [Tool("headscale_create_user", true), Tool("headscale_create_preauth_key", true), Tool("authentik_create_user", true)] +
      [Tool("k8s_restart_deployment", true), Tool("k8s_scale_deployment", true), Tool("k8s_delete_pod", true)]
    else []
  }

  // The operating registry adds six tools, all of them writes, to the seventeen of the read-only one,
  // of which three are writes.
  lemma RegistryWrites(i: nat)
    requires i < 23
    ensures |Registry(false)| == 17 && |Registry(true)| == 23 && Registry(true)[..17] == Registry(false)
    ensures Registry(true)[i].write <==> i == 8 || i == 9 || i == 13 || i >= 17
  {
  }

  // The read-only registry does hold write tools, so it is the gate and not the registry that
  // keeps them from running: each of them is answered with a refusal.
  lemma ReadOnlyRegistryIsGated(call: ToolCall, confirm: bool)
    ensures exists t :: t in Registry(false) && t.write
    ensures Judge(Registry(false), false, confirm, call).Permitted? ==>
      !Judge(Registry(false), false, confirm, call).tool.write
  {
    hide Find;
    assert Registry(false)[8].write;
  }
}
