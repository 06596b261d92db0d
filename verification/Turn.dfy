/** The turn machine of internal/figaro/turn.go, turn_seal.go and repair.go, as far as it
    decides what is in the conversation log. */
module Turn {
  import opened Message
  import ToolText

  // ----- What a good log looks like

  /** u consists of one result for every call of a, in order. */
  predicate Answers(u: Message, a: Message) {
    u.role.User? && (forall c | c in u.content :: c.Result?) && Ids(u.content) == CallIds(a)
  }

  predicate Answered(log: seq<Message>, i: nat)
    requires i < |log|
  {
    CallIds(log[i]) == [] || (i + 1 < |log| && Answers(log[i + 1], log[i]))
  }

  /** Every tool call from message b on is answered by the very next message. */
  predicate Settled(log: seq<Message>, b: nat := 0) { forall i | b <= i < |log| :: Answered(log, i) }

  /** From message b on, only the last one may have calls without an answer. */
  predicate OnlyTailOpen(log: seq<Message>, b: nat := 0) { forall i | b <= i < |log| - 1 :: Answered(log, i) }

  lemma SettledAppend(log: seq<Message>, m: Message, b: nat := 0)
    requires Settled(log, b)
    ensures OnlyTailOpen(log + [m], b)
    ensures CallIds(m) == [] ==> Settled(log + [m], b)
  {
    forall i | b <= i < |log| ensures Answered(log + [m], i) {
      assert Answered(log, i);
    }
  }

  lemma AnswerAppend(log: seq<Message>, u: Message, b: nat := 0)
    requires OnlyTailOpen(log, b) && log != [] && Answers(u, log[|log| - 1]) && !u.role.Assistant?
    ensures Settled(log + [u], b)
  {
    forall i | b <= i < |log| ensures Answered(log + [u], i) {
      if i < |log| - 1 {
        assert Answered(log, i);
      }
    }
  }

  // ----- Turn state

  datatype Status = Pending | Running | Ok | Error

  /** A turnTool: what is known of a call. */
  datatype Tool = Tool(id: string, name: string, status: Status, isError: bool, result: string, tail: string)

  function PendingTool(id: string, name: string): Tool { Tool(id, name, Pending, false, "", "") }

  datatype TurnState = TurnState(assistant: Message, tools: seq<Tool>, states: map<string, Tool>, committed: bool)

  const NEW_TURN := TurnState(Message(Assistant, []), [], map[], false)

  predicate Complete(c: Content) { c.Invoke? ==> c.id != "" && c.name != "" && c.args.Some? }

  /** Every call carries an id, a name and arguments. */
  predicate AllComplete(cs: seq<Content>) { forall c | c in cs :: Complete(c) }

  /** partialAssistant drops half-streamed calls. */
  function Kept(cs: seq<Content>): seq<Content> {
    if cs == [] then [] else Kept(cs[..|cs| - 1]) + (if Complete(cs[|cs| - 1]) then [cs[|cs| - 1]] else [])
  }

  function PartialAssistant(m: Option<Message>): Message {
    Message(Assistant, if m.None? then [] else Kept(m.value.content))
  }

  /** toolsFromAssistant: one pending tool for each call with an id. */
  function ToolsOf(cs: seq<Content>): seq<Tool> {
    if cs == [] then []
    else ToolsOf(cs[..|cs| - 1])
         + (var c := cs[|cs| - 1]; if c.Invoke? && c.id != "" then [PendingTool(c.id, c.name)] else [])
  }

  function ToolIds(ts: seq<Tool>): (ids: seq<string>)
    ensures |ids| == |ts|
  {
    seq(|ts|, i requires 0 <= i < |ts| => ts[i].id)
  }

  function ResultOf(t: Tool): Content {
    var ended := t.status.Ok? || t.status.Error?;
    Result(t.id, t.name, ToolText.ResultText(ended, t.result, t.tail), !t.status.Ok? || t.isError)
  }

  /** interruptedToolResults: a result for every tool that has an id. */
  function InterruptedResults(ts: seq<Tool>): seq<Content> {
    if ts == [] then []
    else InterruptedResults(ts[..|ts| - 1]) + (if ts[|ts| - 1].id == "" then [] else [ResultOf(ts[|ts| - 1])])
  }

  lemma ToolIdsAppend(a: seq<Tool>, b: seq<Tool>)
    ensures ToolIds(a + b) == ToolIds(a) + ToolIds(b)
  {
  }

  lemma {:induction false} KeptAll(cs: seq<Content>)
    requires AllComplete(cs)
    ensures Kept(cs) == cs
  {
    if cs != [] {
      KeptAll(cs[..|cs| - 1]);
      assert cs == cs[..|cs| - 1] + [cs[|cs| - 1]];
    }
  }

  lemma {:induction false} KeptComplete(cs: seq<Content>)
    ensures AllComplete(Kept(cs)) && |Kept(cs)| <= |cs|
  {
    if cs != [] {
      KeptComplete(cs[..|cs| - 1]);
    }
  }

  lemma {:induction false} ToolsMatchCalls(cs: seq<Content>)
    requires AllComplete(cs)
    ensures ToolIds(ToolsOf(cs)) == Ids(Calls(cs))
    ensures forall t :: t in ToolsOf(cs) ==> t.id != ""
  {
    if cs != [] {
      var pre, c := cs[..|cs| - 1], cs[|cs| - 1];
      assert c in cs;
      assert AllComplete(pre);
      ToolsMatchCalls(pre);
      if c.Invoke? {
        IdsAppend(Calls(pre), [c]);
        ToolIdsAppend(ToolsOf(pre), [PendingTool(c.id, c.name)]);
        assert Ids([c]) == [c.id];
      } else {
        assert ToolsOf(cs) == ToolsOf(pre) && Calls(cs) == Calls(pre);
      }
    }
  }

  lemma {:induction false} ResultsMatchTools(ts: seq<Tool>)
    requires forall t :: t in ts ==> t.id != ""
    ensures Ids(InterruptedResults(ts)) == ToolIds(ts) && |InterruptedResults(ts)| == |ts|
    ensures forall c :: c in InterruptedResults(ts) ==> c.Result?
    ensures Calls(InterruptedResults(ts)) == []
  {
    if ts != [] {
      var pre := ts[..|ts| - 1];
      ResultsMatchTools(pre);
      var rs := InterruptedResults(pre);
      var t := ts[|ts| - 1];
      assert t in ts && ts == pre + [t];
      assert InterruptedResults(ts) == rs + [ResultOf(t)];
      IdsAppend(rs, [ResultOf(t)]);
      ToolIdsAppend(pre, [t]);
      assert Ids([ResultOf(t)]) == [t.id];
      assert (rs + [ResultOf(t)])[..|rs|] == rs;
    }
  }

  lemma {:induction false} CallsLength(cs: seq<Content>)
    ensures |ToolsOf(Kept(cs))| <= |Calls(cs)|
    ensures |ToolsOf(Kept(cs))| == |Calls(cs)| <==> AllComplete(cs)
  {
    if cs != [] {
      var pre, c := cs[..|cs| - 1], cs[|cs| - 1];
      CallsLength(pre);
      assert cs == pre + [c];
      assert AllComplete(cs) <==> AllComplete(pre) && Complete(c);
      if Complete(c) {
        assert Kept(cs) == Kept(pre) + [c];
        assert Kept(cs)[..|Kept(pre)|] == Kept(pre);
      } else {
        assert Kept(cs) == Kept(pre);
      }
    }
  }

  /** The tools noted for a message are exactly its calls if and only if every call is
      complete: a provider that seals a call without arguments leaves it unanswered when
      the turn is then interrupted. */
  lemma {:induction false} NotedToolsMatchIff(m: Message)
    requires m.role.Assistant?
    ensures ToolIds(ToolsOf(PartialAssistant(Some(m)).content)) == CallIds(m) <==> AllComplete(m.content)
  {
    CallsLength(m.content);
    if AllComplete(m.content) {
      KeptAll(m.content);
      ToolsMatchCalls(m.content);
    }
  }

  /** What sealing the turn leaves after log, when tools are the noted ones. */
  function Closed(log: seq<Message>, tools: seq<Tool>): seq<Message> {
    var results := InterruptedResults(tools);
    if |results| > 0 then log + [Message(User, results)] else log
  }

  /** The noted tools are the complete calls of the last message. */
  ghost predicate Noted(log: seq<Message>, tools: seq<Tool>) {
    && log != [] && log[|log| - 1].role.Assistant?
    && ToolIds(tools) == ToolIds(ToolsOf(Kept(log[|log| - 1].content)))
  }

  /** Sealing after an interrupt: the log ends settled if and only if the provider's message
      had no incomplete call. */
  lemma {:induction false} ClosedSettlesIff(log: seq<Message>, tools: seq<Tool>, b: nat := 0)
    requires OnlyTailOpen(log, b) && !Settled(log, b) && Noted(log, tools) && forall t :: t in tools ==> t.id != ""
    ensures log != [] && (Settled(Closed(log, tools), b) <==> AllComplete(log[|log| - 1].content))
  {
    hide Answers;
    var m, results := log[|log| - 1], InterruptedResults(tools);
    ResultsMatchTools(tools);
    CallsLength(m.content);
    if AllComplete(m.content) {
      KeptAll(m.content);
      ToolsMatchCalls(m.content);
      if |results| > 0 {
        ToAnswer(Message(User, results), m);
        AnswerAppend(log, Message(User, results), b);
      } else {
        TailQuiet(log, b);
      }
    } else if |results| > 0 {
      TooFew(log, Message(User, results), b);
    }
  }

  /** An interrupt after the provider's message m was sealed on a settled log: all calls end
      answered if and only if each of them has an id, a name and arguments. */
  lemma {:induction false} InterruptedSealIff(log: seq<Message>, m: Message, tools: seq<Tool>, b: nat := 0)
    requires b <= |log| && Settled(log, b) && Noted(log + [m], tools) && forall t :: t in tools ==> t.id != ""
    ensures Settled(Closed(log + [m], tools), b) <==> AllComplete(m.content)
  {
    SettledAppend(log, m, b);
    CallsLength(m.content);
    ResultsMatchTools(tools);
    if CallIds(m) == [] {
      assert |ToolIds(tools)| == 0;
    } else {
      assert !Answered(log + [m], |log|);
      ClosedSettlesIff(log + [m], tools, b);
    }
  }

  lemma TooFew(log: seq<Message>, u: Message, b: nat := 0)
    requires b < |log| && |u.content| < |CallIds(log[|log| - 1])|
    ensures !Settled(log + [u], b)
  {
    assert !Answered(log + [u], |log| - 1);
  }

  /** A sealed message with a call that has a name but no arguments: after the interrupt its
      call is open, and after one more message it is open for good. */
  lemma {:induction false} IncompleteCallStaysOpen(m: Message, more: Message)
    requires m == Message(Assistant, [Invoke("a", "read", Some(map[])), Invoke("b", "read", None)])
    ensures var log := [m];
            var tools := ToolsOf(PartialAssistant(Some(m)).content);
            && Noted(log, tools) && |Closed(log, tools)| == 2
            && !Settled(Closed(log, tools)) && !OnlyTailOpen(Closed(log, tools) + [more])
  {
    hide Kept, ToolsOf, Calls, InterruptedResults, Settled, OnlyTailOpen;
    var a, z := m.content[0], m.content[1];
    KeptOfTwo(a, z);
    ToolsOfOne(a);
    CallsOfTwo(a, z);
    var log, tools := [m], [PendingTool("a", "read")];
    assert tools == ToolsOf(PartialAssistant(Some(m)).content);
    ResultsMatchTools(tools);
    TooFew(log, Message(User, InterruptedResults(tools)));
    OpenForGood(Closed(log, tools), more);
  }

  lemma KeptOfTwo(a: Content, z: Content)
    requires Complete(a) && !Complete(z)
    ensures Kept([a, z]) == [a]
  {
    assert [a, z][..1] == [a] && [a][..0] == [];
    assert Kept([a]) == Kept([]) + [a];
  }

  lemma ToolsOfOne(c: Content)
    requires c.Invoke? && c.id != ""
    ensures ToolsOf([c]) == [PendingTool(c.id, c.name)]
  {
    assert [c][..0] == [];
    assert ToolsOf([c]) == ToolsOf([]) + [PendingTool(c.id, c.name)];
  }

  lemma CallsOfTwo(a: Content, z: Content)
    requires a.Invoke? && z.Invoke?
    ensures Calls([a, z]) == [a, z]
  {
    assert [a, z][..1] == [a] && [a][..0] == [];
    assert Calls([a]) == Calls([]) + [a];
    assert Calls([a, z]) == Calls([a]) + [z];
  }

  /** A message that is followed by something else than its answer stays open. */
  lemma OpenForGood(log: seq<Message>, more: Message)
    requires |log| == 2 && CallIds(log[0]) != [] && !Answers(log[1], log[0])
    ensures !Settled(log) && !OnlyTailOpen(log + [more])
  {
    assert !Answered(log, 0);
    assert !Answered(log + [more], 0);
  }

  // ----- What every step keeps

  predicate Keyed(states: map<string, Tool>) { forall id | id in states :: states[id].id == id }

  /** The noted tools are the calls of the noted assistant message. */
  ghost predicate TurnOk(t: TurnState) {
    && Keyed(t.states) && t.assistant.role.Assistant?
    && (forall tool :: tool in t.tools ==> tool.id != "")
    && (!t.committed ==> ToolIds(t.tools) == CallIds(t.assistant))
  }

  /** Either every call in the log is answered, or the turn knows the last message's
      complete calls and can answer those. */
  ghost predicate Inv(log: seq<Message>, turn: Option<TurnState>, b: nat := 0) {
    && OnlyTailOpen(log, b)
    && (match turn
        case None => Settled(log, b)
        case Some(t) => TurnOk(t) && (Settled(log, b) || (t.committed && Noted(log, t.tools))))
  }

  /** Nothing is missing from the last message's calls. */
  predicate TailComplete(log: seq<Message>) { log != [] && AllComplete(log[|log| - 1].content) }

  /** Repair can help: the calls are complete, or none of them is. */
  predicate Answerable(m: Message) { AllComplete(m.content) || ToolsOf(Kept(m.content)) == [] }

  /** The role and content of an answer to a message's calls. */
  function Failed(cs: seq<Content>): seq<Content> {
    if cs == [] then []
    else
      var c := cs[|cs| - 1];
      Failed(cs[..|cs| - 1]) + [if c.Invoke? then Result(c.id, c.name, "", true) else c]
  }

  lemma {:induction false} FailedAnswers(cs: seq<Content>)
    requires forall c :: c in cs ==> c.Invoke?
    ensures Ids(Failed(cs)) == Ids(cs) && |Failed(cs)| == |cs|
    ensures forall c :: c in Failed(cs) ==> c.Result?
  {
    if cs != [] {
      var pre, c := cs[..|cs| - 1], cs[|cs| - 1];
      assert c in cs && cs == pre + [c];
      FailedAnswers(pre);
      IdsAppend(pre, [c]);
      IdsAppend(Failed(pre), [Result(c.id, c.name, "", true)]);
      assert Ids([c]) == Ids([Result(c.id, c.name, "", true)]);
    }
  }

  lemma {:induction false} CallsAreInvokes(cs: seq<Content>)
    ensures forall c :: c in Calls(cs) ==> c.Invoke? && c in cs
  {
    if cs != [] {
      CallsAreInvokes(cs[..|cs| - 1]);
    }
  }

  /** repairInterruptedTail, as a function of the log. */
  function Repaired(log: seq<Message>): seq<Message> {
    if log == [] || ToolInvokes(log[|log| - 1]) == [] then log
    else log + [Message(User, Failed(ToolInvokes(log[|log| - 1])))]
  }

  lemma {:induction false} RepairSettles(log: seq<Message>, b: nat := 0)
    requires OnlyTailOpen(log, b)
    ensures Settled(Repaired(log), b) && log <= Repaired(log)
    ensures Settled(log, b) && log != [] && ToolInvokes(log[|log| - 1]) == [] ==> Repaired(log) == log
  {
    if log != [] {
      var tail := log[|log| - 1];
      if ToolInvokes(tail) == [] {
        forall i | b <= i < |log| ensures Answered(log, i) {
        }
      } else {
        CallsAreInvokes(tail.content);
        FailedAnswers(ToolInvokes(tail));
        AnswerAppend(log, Message(User, Failed(ToolInvokes(tail))), b);
      }
    }
  }

  /** The process may die after any append: whatever prefix of a good log is left on disk,
      the repair at the next start makes it good again. */
  lemma {:induction false} CrashThenRepair(log: seq<Message>, n: nat)
    requires Settled(log) && n <= |log|
    ensures OnlyTailOpen(log[..n]) && Settled(Repaired(log[..n])) && log[..n] <= Repaired(log[..n])
  {
    forall i | 0 <= i < n - 1 ensures Answered(log[..n], i) {
      assert Answered(log, i);
    }
    RepairSettles(log[..n]);
  }

  // ----- The environment

  /** One thing the drain loop can see while the provider streams. */
  datatype StreamEvent =
    | Bus(e: BusEvent)
    | Figaro(payload: Message, cacheOk: bool)   // the provider's final message; its cache write may fail
    | ToolNews(id: string, name: string, status: Status, isErr: bool,
               terminal: Option<string>, streamed: string)   // what it returned, if it ended; what has streamed
    | Interrupt
    | Panic

  /** What a tool returned. */
  datatype ToolOutcome = ToolOutcome(content: seq<Content>, isErr: bool)

  /** The prose of some blocks, one behind the other. */
  function ProseText(cs: seq<Content>): string {
    if cs == [] then [] else ProseText(cs[..|cs| - 1]) + if cs[|cs| - 1].Prose? then cs[|cs| - 1].text else []
  }

  method JoinProse(cs: seq<Content>) returns (text: string)
    ensures text == ProseText(cs)
  {
    text := [];
    for i := 0 to |cs|
      invariant text == ProseText(cs[..i])
    {
      assert cs[..i + 1][..i] == cs[..i];
      if cs[i].Prose? {
        text := text + cs[i].text;
      }
    }
    assert cs[..|cs|] == cs;
  }

  const MISSING_ID := "Error: missing tool_call_id"

  /** The answer to one call: what its tool returned, nothing if it did not, and an error for
      a call that could not be dispatched. */
  function ResultFor(c: Content, outcomes: map<string, ToolOutcome>): Content
    requires c.Invoke?
  {
    if c.id == "" then Result(c.id, c.name, MISSING_ID, true)
    else if c.id in outcomes then Result(c.id, c.name, ProseText(outcomes[c.id].content), outcomes[c.id].isErr)
    else Result(c.id, c.name, "", false)
  }

  /** What happens between two checkpoints of a round. */
  datatype Poll = Calm | Interrupted | Panics

  datatype Env = Env(events: seq<StreamEvent>, sendErr: bool, afterStream: Poll, toolNews: seq<StreamEvent>,
                     outcomes: map<string, ToolOutcome>, afterTools: Poll, afterAppend: Poll)

  /** Only tools with an id are dispatched, so only they report. */
  predicate NewsOk(es: seq<StreamEvent>) { forall e | e in es :: e.ToolNews? ==> e.id != "" }

  /** Providers send one final message, last. */
  predicate ProviderOk(es: seq<StreamEvent>) {
    && NewsOk(es)
    && (forall e | e in es :: e.Figaro? ==> e.payload.role.Assistant?)
    && (forall i, j | 0 <= i < j < |es| :: es[i].Figaro? ==> !es[j].Bus? && !es[j].Figaro?)
  }

  /** Every call that the provider seals has an id, a name and arguments. */
  predicate SealsComplete(es: seq<StreamEvent>) { forall e | e in es :: e.Figaro? ==> AllComplete(e.payload.content) }

  ghost predicate SealedBy(m: Message, es: seq<StreamEvent>) { exists e :: e in es && e.Figaro? && e.payload == m }

  predicate CalmEvents(es: seq<StreamEvent>) {
    forall e | e in es :: !e.Interrupt? && !e.Panic? && (e.Figaro? ==> e.cacheOk)
  }

  /** A round that nobody interrupts and in which nothing fails. */
  predicate CalmRound(env: Env) {
    && CalmEvents(env.events) && CalmEvents(env.toolNews) && !env.sendErr
    && env.afterStream.Calm? && env.afterTools.Calm? && env.afterAppend.Calm?
  }

  datatype Event = Prompt(text: string) | Set | Fork

  datatype Outcome = Done | Again | Panicked

  function PromptMessage(p: Event): Message {
    Message(User, if p.Prompt? && p.text != "" then [Prose(p.text)] else [])
  }

  function Leading(q: seq<Event>): (n: nat)
    ensures n <= |q| && (forall i :: 0 <= i < n ==> q[i].Prompt?) && (n < |q| ==> !q[n].Prompt?)
  {
    if q == [] || !q[0].Prompt? then 0 else 1 + Leading(q[1..])
  }

  function PromptMessages(ps: seq<Event>): (ms: seq<Message>)
    ensures |ms| == |ps|
  {
    seq(|ps|, i requires 0 <= i < |ps| => PromptMessage(ps[i]))
  }

  /** hasRenderablePrompt. */
  predicate Renderable(ps: seq<Event>) { exists p :: p in ps && p != Prompt("") }

  function Prompts(q: seq<Event>): seq<Event> {
    if q == [] then [] else Prompts(q[..|q| - 1]) + if q[|q| - 1].Prompt? then [q[|q| - 1]] else []
  }

  lemma {:induction false} PromptsAppend(a: seq<Event>, b: seq<Event>)
    ensures Prompts(a + b) == Prompts(a) + Prompts(b)
  {
    if b == [] {
      assert a + b == a;
    } else {
      PromptsAppend(a, b[..|b| - 1]);
      assert (a + b)[..|a + b| - 1] == a + b[..|b| - 1];
    }
  }

  lemma {:induction false} MessagesAppend(a: seq<Event>, b: seq<Event>)
    ensures PromptMessages(a + b) == PromptMessages(a) + PromptMessages(b)
  {
  }

  lemma {:induction false} NoPrompts(q: seq<Event>)
    requires forall e :: e in q ==> e.Fork?
    ensures Prompts(q) == []
  {
    if q != [] {
      assert q[|q| - 1] in q;
      NoPrompts(q[..|q| - 1]);
    }
  }

  lemma {:induction false} OnlyPrompts(q: seq<Event>)
    requires forall e :: e in q ==> e.Prompt?
    ensures Prompts(q) == q
  {
    if q != [] {
      assert q[|q| - 1] in q;
      OnlyPrompts(q[..|q| - 1]);
    }
  }

  lemma FreshTurnInv(log: seq<Message>, turn: Option<TurnState>, b: nat := 0)
    requires Settled(log, b) && (turn == None || turn == Some(NEW_TURN))
    ensures Inv(log, turn, b)
  {
  }

  lemma Regrouped(taken: seq<Event>, forks: seq<Event>, ps: seq<Event>, rest: seq<Event>)
    ensures taken + forks + ps + rest == taken + (forks + (ps + rest))
  {
  }

  lemma LogMoves(log: seq<Message>, a: seq<Message>, b: seq<Message>)
    ensures log + a + b == log + (a + b) && log <= log + a + b
  {
  }

  lemma NothingTaken()
    ensures PromptMessages(Prompts([])) == []
  {
  }

  /** Forks leave no message, prompts one each. */
  lemma {:induction false} TakenMore(taken: seq<Event>, forks: seq<Event>, ps: seq<Event>)
    requires forall e :: e in taken ==> !e.Set?
    requires (forall e :: e in forks ==> e.Fork?) && forall e :: e in ps ==> e.Prompt?
    ensures PromptMessages(Prompts(taken + forks + ps)) == PromptMessages(Prompts(taken)) + PromptMessages(ps)
    ensures forall e :: e in taken + forks + ps ==> !e.Set?
  {
    hide Prompts, PromptMessages;
    PromptsAppend(taken, forks);
    PromptsAppend(taken + forks, ps);
    NoPrompts(forks);
    OnlyPrompts(ps);
    MessagesAppend(Prompts(taken), ps);
    assert Prompts(taken) + [] == Prompts(taken);
  }

  lemma PromptHasNoCalls(p: Event)
    ensures CallIds(PromptMessage(p)) == []
  {
  }

  /** What news of a tool makes of what was known of it. */
  function NewsOf(t: TurnState, id: string, name: string, status: Status, isErr: bool,
      terminal: Option<string>, streamed: string): Tool {
    var was := if id in t.states then t.states[id] else PendingTool(id, "");
    var known := if name != "" then name else was.name;
    if terminal.None? then Tool(id, known, status, isErr, was.result, streamed)
    else
      var combined := ToolText.Combined(ToolText.TrimSpace(terminal.value), ToolText.TrimSpace(streamed));
      Tool(id, known, status, isErr, combined, ToolText.BoundedTail(combined))
  }

  method News(t: TurnState, id: string, name: string, status: Status, isErr: bool,
      terminal: Option<string>, streamed: string) returns (now: Tool)
    ensures now == NewsOf(t, id, name, status, isErr, terminal, streamed) && now.id == id
  {
    hide ToolText.BoundedTail, ToolText.TrimSpace, ToolText.Combined;
    now := if id in t.states then t.states[id] else PendingTool(id, "");
    now := now.(id := id, status := status, isError := isErr);
    if name != "" {
      now := now.(name := name);
    }
    if terminal.Some? {
      var combined := ToolText.Combined(ToolText.TrimSpace(terminal.value), ToolText.TrimSpace(streamed));
      now := now.(result := combined, tail := ToolText.BoundedTail(combined));
    } else {
      now := now.(tail := streamed);
    }
  }

  /** The first tool with the id of now replaced by it. */
  function Updated(ts: seq<Tool>, now: Tool): seq<Tool> {
    if ts == [] then [] else if ts[0].id == now.id then [now] + ts[1..] else [ts[0]] + Updated(ts[1..], now)
  }

  function WithTool(t: TurnState, now: Tool): TurnState {
    t.(tools := Updated(t.tools, now), states := t.states[now.id := now])
  }

  lemma {:induction false} UpdatedIds(ts: seq<Tool>, now: Tool)
    ensures ToolIds(Updated(ts, now)) == ToolIds(ts)
    ensures forall t :: t in Updated(ts, now) ==> t in ts || t == now
  {
    if ts != [] && ts[0].id != now.id {
      UpdatedIds(ts[1..], now);
      ToolIdsAppend([ts[0]], Updated(ts[1..], now));
      ToolIdsAppend([ts[0]], ts[1..]);
      assert ts == [ts[0]] + ts[1..];
    }
  }

  /** News of a tool leave the turn as fit to be sealed as it was. */
  lemma {:induction false} ToolNoted(log: seq<Message>, t: TurnState, now: Tool, b: nat)
    requires Inv(log, Some(t), b) && now.id != ""
    ensures Inv(log, Some(WithTool(t, now)), b) && ToolIds(WithTool(t, now).tools) == ToolIds(t.tools)
  {
    hide Settled, OnlyTailOpen, Updated;
    UpdatedIds(t.tools, now);
  }

  lemma {:induction false} FirstReplaced(ts: seq<Tool>, now: Tool, i: nat)
    requires i <= |ts| && (forall k :: 0 <= k < i ==> ts[k].id != now.id) && (i < |ts| ==> ts[i].id == now.id)
    ensures Updated(ts, now) == if i < |ts| then ts[i := now] else ts
  {
    if ts != [] && i > 0 {
      FirstReplaced(ts[1..], now, i - 1);
    }
  }

  /** The last of the tools with this id. */
  function LastNamed(ts: seq<Tool>, id: string): Option<Tool> {
    if ts == [] then None
    else if ts[|ts| - 1].id == id then Some(ts[|ts| - 1])
    else LastNamed(ts[..|ts| - 1], id)
  }

  /** What a tool becomes: its recorded state, else what it was before, else what it is. */
  function MergedTool(t: Tool, previous: seq<Tool>, states: map<string, Tool>): Tool {
    if t.id in states then states[t.id]
    else if LastNamed(previous, t.id).Some? then LastNamed(previous, t.id).value
    else t
  }

  method MergeTurnTools(current: seq<Tool>, previous: seq<Tool>, states: map<string, Tool>) returns (merged: seq<Tool>)
    requires Keyed(states)
    ensures ToolIds(merged) == ToolIds(current)
    ensures forall i :: 0 <= i < |current| ==> merged[i] == MergedTool(current[i], previous, states)
  {
    var byID: map<string, Tool> := map[];
    for i := 0 to |previous|
      invariant Keyed(byID)
      invariant forall id :: (if id in byID then Some(byID[id]) else None) == LastNamed(previous[..i], id)
    {
      assert previous[..i + 1][..i] == previous[..i];
      byID := byID[previous[i].id := previous[i]];
    }
    assert previous[..|previous|] == previous;
    merged := current;
    for i := 0 to |merged|
      invariant |merged| == |current|
      invariant forall k :: 0 <= k < |merged| ==> merged[k].id == current[k].id
      invariant forall k :: 0 <= k < i ==> merged[k] == MergedTool(current[k], previous, states)
      invariant forall k :: i <= k < |merged| ==> merged[k] == current[k]
    {
      var id := merged[i].id;
      if id in byID {
        merged := merged[i := byID[id]];
      }
      if id in states {
        merged := merged[i := states[id]];
      }
    }
  }

  class Agent {
    var log: seq<Message>
    var turn: Option<TurnState>
    var interrupted: bool
    var inbox: seq<Event>

    /** Where the messages begin that the current turn has to do with. */
    ghost var from: nat

    /** runWithRecovery starts from a log that a previous process may have left open. */
    constructor (log: seq<Message>)
      requires OnlyTailOpen(log)
      ensures this.log == Repaired(log) && Settled(this.log) && turn == None && inbox == [] && !interrupted
    {
      this.log, turn, interrupted, inbox, from := log, None, false, [], 0;
      new;
      RepairInterruptedTail();
    }

    method RepairInterruptedTail()
      requires OnlyTailOpen(log, from)
      modifies `log
      ensures log == Repaired(old(log)) && Settled(log, from) && old(log) <= log
    {
      RepairSettles(log, from);
      Repair();
    }

    method NoteAssistant(m: Option<Message>)
      requires turn.Some? ==> TurnOk(turn.value) && !turn.value.committed
      modifies `turn
      ensures turn.Some? == old(turn).Some?
      ensures turn.Some? ==> TurnOk(turn.value) && !turn.value.committed && turn.value.assistant == PartialAssistant(m)
    {
      if turn.None? {
        return;
      }
      var t := turn.value;
      var assistant := PartialAssistant(m);
      if m.Some? {
        KeptComplete(m.value.content);
      }
      ToolsMatchCalls(assistant.content);
      var fresh_ := ToolsOf(assistant.content);
      var tools := MergeTurnTools(fresh_, t.tools, t.states);
      forall tool | tool in tools ensures tool.id != "" {
        var i :| 0 <= i < |tools| && tools[i] == tool;
        assert ToolIds(tools)[i] == ToolIds(fresh_)[i];
        assert fresh_[i] in fresh_;
      }
      turn := Some(t.(assistant := assistant, tools := tools));
    }

    method NoteTool(id: string, name: string, status: Status, isErr: bool, terminal: Option<string>, streamed: string)
      requires Inv(log, turn, from) && id != ""
      modifies `turn
      ensures Inv(log, turn, from) && turn.Some? == old(turn).Some?
      ensures turn.Some? ==> turn.value.committed == old(turn).value.committed
      ensures turn.Some? ==> ToolIds(turn.value.tools) == ToolIds(old(turn).value.tools)
      ensures (turn.Some? ==>
               var was := old(turn).value;
               turn.value == WithTool(was, NewsOf(was, id, name, status, isErr, terminal, streamed)))
    {
      hide NewsOf, Inv, Updated;
      if turn.None? {
        return;
      }
      var t := turn.value;
      var now := News(t, id, name, status, isErr, terminal, streamed);
      var tools := t.tools;
      var i := 0;
      while i < |tools|
        invariant 0 <= i <= |tools| && tools == t.tools && forall k :: 0 <= k < i ==> tools[k].id != id
      {
        if tools[i].id == id {
          tools := tools[i := now];
          break;
        }
        i := i + 1;
      }
      FirstReplaced(t.tools, now, i);
      ToolNoted(log, t, now, from);
      turn := Some(t.(tools := tools, states := t.states[id := now]));
    }

    /** sealTurn: put what streamed, and an answer for every noted tool, in the log. */
    method SealTurn()
      requires Inv(log, turn, from)
      modifies `log, `turn
      ensures turn == None && old(log) <= log
      ensures Settled(log, from) <==> old(Settled(log, from) || TailComplete(log))
      ensures old(Settled(log, from)) || log == Closed(old(log), old(turn).value.tools)
    {
      hide Settled, OnlyTailOpen, Answers, Noted;
      var t := turn;
      turn := None;
      if t.None? {
        return;
      }
      var tools := InterruptedResults(t.value.tools);
      if t.value.committed {
        if Settled(log, from) {
          SealTools(log, t.value, from);
        } else {
          ClosedSettlesIff(log, t.value.tools, from);
        }
        if |tools| > 0 {
          log := log + [Message(User, tools)];
        }
        return;
      }
      var assistant := t.value.assistant;
      if |assistant.content| == 0 {
        return;
      }
      SealFresh(log, t.value, from);
      log := log + [assistant];
      if |tools| > 0 {
        log := log + [Message(User, tools)];
      }
    }

    /** runWithRecovery after a panic: the turn's state is still in memory. */
    method Recover()
      requires Inv(log, turn, from)
      modifies this
      ensures turn == None && old(log) <= log && !interrupted && inbox == old(inbox) && from == old(from)
      ensures (Settled(log, from) <==>
               old(Settled(log, from)) || (old(log) != [] && Answerable(old(log)[|old(log)| - 1])))
    {
      hide Settled, OnlyTailOpen, Closed, Repaired, Answerable, Answered, AllComplete;
      interrupted := false;
      ghost var before, t := log, turn;
      SealTurn();
      if Settled(before, from) {
        SettledTailOpen(log, from);
        RepairSettles(log, from);
      } else {
        ClosedTail(before, t.value.tools, from);
      }
      Repair();
    }

    /** repairInterruptedTail on any log: an assistant message at the tail gets an answer for
        each of its calls. */
    method Repair()
      modifies `log
      ensures log == Repaired(old(log)) && old(log) <= log
    {
      if log == [] || !log[|log| - 1].role.Assistant? {
        return;
      }
      var calls := ToolInvokes(log[|log| - 1]);
      if |calls| == 0 {
        return;
      }
      var results: seq<Content> := [];
      CallsAreInvokes(log[|log| - 1].content);
      for i := 0 to |calls|
        invariant results == Failed(calls[..i]) && log == old(log)
      {
        assert calls[..i + 1][..i] == calls[..i] && calls[i] in calls;
        results := results + [Result(calls[i].id, calls[i].name, "", true)];
      }
      assert calls[..|calls|] == calls;
      log := log + [Message(User, results)];
    }

    // ----- Prompts

    /** Each prompt becomes one message, in the order of the queue. */
    method AppendPromptEvents(ps: seq<Event>)
      requires Settled(log, from)
      modifies `log
      ensures Settled(log, from) && log == old(log) + PromptMessages(ps)
    {
      for i := 0 to |ps|
        invariant Settled(log, from) && log == old(log) + PromptMessages(ps[..i])
      {
        PromptHasNoCalls(ps[i]);
        SettledAppend(log, PromptMessage(ps[i]), from);
        assert PromptMessages(ps[..i + 1]) == PromptMessages(ps[..i]) + [PromptMessage(ps[i])];
        log := log + [PromptMessage(ps[i])];
      }
      assert ps[..|ps|] == ps;
    }

    /** TakeReadyUserPrompts: the leading run of prompts, never past another event. */
    method TakeReadyUserPrompts() returns (taken: seq<Event>)
      modifies `inbox
      ensures taken + inbox == old(inbox) && |taken| == Leading(old(inbox))
      ensures (forall e :: e in taken ==> e.Prompt?) && (inbox != [] ==> !inbox[0].Prompt?)
    {
      var n := 0;
      while n < |inbox| && inbox[n].Prompt?
        invariant 0 <= n <= |inbox| && Leading(inbox) == n + Leading(inbox[n..]) && inbox == old(inbox)
      {
        n := n + 1;
      }
      taken := inbox[..n];
      inbox := inbox[n..];
    }

    /** TakeReadyForks: the leading run of forks. */
    method TakeReadyForks() returns (taken: seq<Event>)
      modifies `inbox
      ensures taken + inbox == old(inbox) && forall e :: e in taken ==> e.Fork?
      ensures inbox != [] ==> !inbox[0].Fork?
    {
      var n := 0;
      while n < |inbox| && inbox[n].Fork?
        invariant 0 <= n <= |inbox| && inbox == old(inbox)
        invariant forall k :: 0 <= k < n ==> inbox[k].Fork?
      {
        n := n + 1;
      }
      taken := inbox[..n];
      inbox := inbox[n..];
    }

    /** appendSteeringPrompts: after the answers of a round, in one step. */
    method AppendSteeringPrompts()
      requires Settled(log, from) && turn == None
      modifies `log, `inbox, `turn
      ensures Settled(log, from) && Inv(log, turn, from)
      ensures log == old(log) + PromptMessages(old(inbox)[..Leading(old(inbox))])
      ensures inbox == old(inbox)[Leading(old(inbox))..]
      ensures turn == if Renderable(old(inbox)[..Leading(old(inbox))]) then Some(NEW_TURN) else None
    {
      var ps := TakeReadyUserPrompts();
      assert ps == old(inbox)[..Leading(old(inbox))];
      AppendPromptEvents(ps);
      if Renderable(ps) {
        turn := Some(NEW_TURN);
      }
    }

    /** prepareProviderRound: forks and prompts, until the queue has neither in front; each
        prompt that is taken becomes a message, in the order of the queue. */
    method PrepareProviderRound() returns (ghost taken: seq<Event>)
      requires Settled(log, from) && Inv(log, turn, from) && (turn == None || turn == Some(NEW_TURN))
      modifies `log, `inbox, `turn
      ensures Settled(log, from) && Inv(log, turn, from) && old(log) <= log && (turn == None || turn == Some(NEW_TURN))
      ensures taken + inbox == old(inbox) && forall e :: e in taken ==> !e.Set?
      ensures inbox != [] ==> inbox[0].Set?
      ensures log == old(log) + PromptMessages(Prompts(taken))
    {
      hide Prompts, PromptMessages, Renderable, Leading, Settled, Inv;
      taken := [];
      NothingTaken();
      while true
        invariant Settled(log, from) && old(log) <= log && (turn == None || turn == Some(NEW_TURN))
        invariant taken + inbox == old(inbox) && forall e :: e in taken ==> !e.Set?
        invariant log == old(log) + PromptMessages(Prompts(taken))
        decreases |inbox|
      {
        var forks := TakeReadyForks();
        var ps := TakeReadyUserPrompts();
        TakenMore(taken, forks, ps);
        Regrouped(taken, forks, ps, inbox);
        ghost var before := taken;
        taken := taken + forks + ps;
        if |ps| == 0 {
          FreshTurnInv(log, turn, from);
          return;
        }
        AppendPromptEvents(ps);
        LogMoves(old(log), PromptMessages(Prompts(before)), PromptMessages(ps));
        if Renderable(ps) {
          turn := Some(NEW_TURN);
        }
      }
    }

    /** assembleToolResults: one result for each call, in the order of the calls. */
    method AssembleToolResults(calls: seq<Content>, outcomes: map<string, ToolOutcome>) returns (m: Message)
      requires forall c :: c in calls ==> c.Invoke?
      ensures m.role.User? && Ids(m.content) == Ids(calls) && |m.content| == |calls|
      ensures forall k :: 0 <= k < |calls| ==> calls[k].Invoke? && m.content[k] == ResultFor(calls[k], outcomes)
    {
      var results: seq<Content> := [];
      for i := 0 to |calls|
        invariant |results| == i
        invariant forall k :: 0 <= k < i ==> calls[k].Invoke? && results[k] == ResultFor(calls[k], outcomes)
      {
        var c := calls[i];
        assert c in calls;
        if c.id == "" {
          results := results + [Result(c.id, c.name, MISSING_ID, true)];
        } else {
          var oc := if c.id in outcomes then outcomes[c.id] else ToolOutcome([], false);
          var text := JoinProse(oc.content);
          results := results + [Result(c.id, c.name, text, oc.isErr)];
        }
      }
      assert Ids(results) == Ids(calls) by {
        forall k | 0 <= k < |calls| ensures Ids(results)[k] == Ids(calls)[k] {
          assert calls[k] in calls;
        }
      }
      return Message(User, results);
    }

    // ----- One round

    /** While the provider streams: nothing new in the log, or its final message. */
    ghost predicate Streaming(before: seq<Message>, sealed: bool)
      reads this
    {
      && Inv(log, turn, from) && Settled(before, from)
      && (if sealed then |log| == |before| + 1 && before <= log && log[|before|].role.Assistant?
            && (turn.None? ==> CallIds(log[|before|]) == []) && (turn.Some? ==> turn.value.committed)
          else log == before && turn.Some? && !turn.value.committed)
    }

    /** The drain loop takes the provider's final message: note it, append it, and keep the
        turn only if there are calls to answer. */
    method SealAssistant(payload: Message, cacheOk: bool, ghost before: seq<Message>, idx: nat) returns (roundErr: bool)
      requires Streaming(before, false) && payload.role.Assistant? && idx == |before| + 1
      modifies `log, `turn
      ensures Streaming(before, true) && log[|before|] == payload && roundErr == !cacheOk
    {
      NoteAssistant(Some(payload));
      KeptComplete(payload.content);
      ToolsMatchCalls(Kept(payload.content));
      var calls := ToolInvokes(payload);
      SettledAppend(log, payload, from);
      log := log + [payload];
      turn := Some(turn.value.(committed := true));
      roundErr := false;
      if |log| != idx || !cacheOk {
        roundErr := true;
      } else if |calls| == 0 {
        turn := None;
      }
    }

    /** One round. Unless the process panicked, every call in the log is answered, or the
        round was cut short after a message was sealed: then that message was left to
        sealTurn, and the log is settled if and only if its calls are complete. */
    method DriveOneRound(allowSteering: bool, env: Env) returns (out: Outcome, ghost cut: Option<Message>)
      requires Inv(log, turn, from) && Settled(log, from) && (turn == None || turn == Some(NEW_TURN))
      requires ProviderOk(env.events) && NewsOk(env.toolNews)
      modifies this
      ensures old(log) <= log && RoundEnds(out, cut, env) && from == old(from)
      ensures CalmRound(env) && !old(interrupted) ==> cut.None? && !out.Panicked? && !interrupted
    {
      hide Settled, OnlyTailOpen, ProviderOk, NewsOk, SealedBy, AllComplete, Noted, TurnOk, CalmEvents;
      cut := None;
      if allowSteering {
        ghost var _ := PrepareProviderRound();
      } else {
        var _ := TakeReadyForks();
      }
      if turn.None? {
        turn := Some(NEW_TURN);
      }
      var idx := |log| + 1;
      ghost var before := log;
      FreshTurnInv(log, turn, from);
      var panicked, roundErr := Stream(env.events, idx);
      if panicked || env.afterStream.Panics? {
        return Panicked, None;
      }
      interrupted := interrupted || env.afterStream.Interrupted?;
      var sealed := |log| == idx && log[idx - 1].role.Assistant?;
      if roundErr || interrupted || (env.sendErr && turn.Some?) {
        cut := CutShort(env);
        return Done, cut;
      }
      if env.sendErr {
        return Done, None;
      }
      if !sealed {
        SealEmpty();
        return Done, None;
      }
      assert log[..idx - 1] == before;
      out, cut := RunTools(env, idx);
    }

    /** A round that is cut short: sealTurn answers what it can. */
    method CutShort(ghost env: Env) returns (ghost cut: Option<Message>)
      requires Inv(log, turn, from) && (Settled(log, from) || (log != [] && SealedBy(log[|log| - 1], env.events)))
      modifies `log, `turn
      ensures old(log) <= log && RoundEnds(Done, cut, env)
    {
      cut := LeftToSeal();
      SealTurn();
    }

    /** What sealTurn will have to answer. */
    ghost method LeftToSeal() returns (cut: Option<Message>)
      requires Inv(log, turn, from)
      ensures cut == if Settled(log, from) then None else Some(log[|log| - 1])
    {
      cut := if Settled(log, from) then None else Some(log[|log| - 1]);
    }

    /** How a round can end. */
    ghost predicate RoundEnds(out: Outcome, cut: Option<Message>, env: Env)
      reads this
    {
      match out
      case Panicked => Inv(log, turn, from) && cut.None? &&
          (Settled(log, from) || (log != [] && SealedBy(log[|log| - 1], env.events)))
      case Again => Settled(log, from) && (turn == None || turn == Some(NEW_TURN)) && cut.None?
      case Done =>
        && turn == None
        && (cut.None? ==> Settled(log, from))
        && (cut.Some? ==> (Settled(log, from) <==> AllComplete(cut.value.content)) && SealedBy(cut.value, env.events))
    }

    /** The provider ended without a message: an empty one closes the turn. */
    method SealEmpty()
      requires Settled(log, from)
      modifies `log, `turn
      ensures Settled(log, from) && turn == None && old(log) <= log
    {
      if turn.Some? {
        SettledAppend(log, Message(Assistant, []), from);
        log := log + [Message(Assistant, [])];
        turn := None;
      }
    }

    /** The second half of a round: answer the calls of the sealed message at idx. */
    method RunTools(env: Env, idx: nat) returns (out: Outcome, ghost cut: Option<Message>)
      requires 0 < idx == |log| && Streaming(log[..idx - 1], true) && NewsOk(env.toolNews)
      requires SealedBy(log[idx - 1], env.events)
      modifies this
      ensures old(log) <= log && RoundEnds(out, cut, env) && from == old(from)
      ensures CalmRound(env) && !old(interrupted) ==> cut.None? && !out.Panicked? && !interrupted
    {
      hide Settled, Answers, OnlyTailOpen, NewsOk, SealedBy, AllComplete, TurnOk, CalmEvents;
      cut := None;
      var tail := log[idx - 1];
      var calls := ToolInvokes(tail);
      if |calls| == 0 {
        turn := None;
        TailQuiet(log, from);
        return Done, None;
      }
      var panicked := CollectTools(env.toolNews);
      if panicked || env.afterTools.Panics? {
        return Panicked, None;
      }
      CallsAreInvokes(tail.content);
      var tic := AssembleToolResults(calls, env.outcomes);
      interrupted := interrupted || env.afterTools.Interrupted?;
      if interrupted {
        cut := CutShort(env);
        return Done, cut;
      }
      assert Answers(tic, tail) by { ToAnswer(tic, tail); }
      AnswerAppend(log, tic, from);
      log := log + [tic];
      turn := None;
      if env.afterAppend.Panics? {
        SettledTailOpen(log, from);
        return Panicked, None;
      }
      interrupted := interrupted || env.afterAppend.Interrupted?;
      if interrupted {
        return Done, None;
      }
      AppendSteeringPrompts();
      return Again, None;
    }

    /** The drain loop of a round. */
    method Stream(events: seq<StreamEvent>, idx: nat) returns (panicked: bool, roundErr: bool)
      requires Inv(log, turn, from) && Settled(log, from) && turn == Some(NEW_TURN) && idx == |log| + 1
      requires ProviderOk(events)
      modifies `log, `turn, `interrupted
      ensures old(log) <= log && Streaming(old(log), |log| > |old(log)|)
      ensures |log| > |old(log)| ==> SealedBy(log[|old(log)|], events)
      ensures CalmEvents(events) ==> !panicked && !roundErr && interrupted == old(interrupted)
    {
      hide Settled, OnlyTailOpen;
      var asm := EMPTY;
      var sealed := false;
      panicked, roundErr := false, false;
      for i := 0 to |events|
        invariant IndexOk(asm) && Streaming(old(log), sealed) && !panicked
        invariant sealed ==> (exists j :: 0 <= j < i && events[j].Figaro?) && SealedBy(log[|old(log)|], events)
        invariant roundErr ==> sealed
        invariant CalmEvents(events) ==> !roundErr && interrupted == old(interrupted)
      {
        assert events[i] in events;
        match events[i] {
          case Bus(e) =>
            asm := Assemble(asm, e);
            NoteAssistant(if asm.content == [] then None else Some(Message(Assistant, asm.content)));
          case Figaro(payload, cacheOk) =>
            NoteAssistant(if asm.content == [] then None else Some(Message(Assistant, asm.content)));
            if !roundErr && !interrupted {
              roundErr := SealAssistant(payload, cacheOk, old(log), idx);
              sealed := true;
            }
          case ToolNews(id, name, status, isErr, terminal, streamed) =>
            NoteTool(id, name, status, isErr, terminal, streamed);
          case Interrupt =>
            interrupted := true;
          case Panic =>
            panicked := true;
            return;
        }
      }
    }

    /** collectToolResults: tool news after the stream, until every call has an outcome. */
    method CollectTools(news: seq<StreamEvent>) returns (panicked: bool)
      requires Inv(log, turn, from) && NewsOk(news)
      modifies `turn, `interrupted
      ensures Inv(log, turn, from) && turn.Some? == old(turn).Some?
      ensures turn.Some? ==> turn.value.committed == old(turn).value.committed
      ensures CalmEvents(news) ==> !panicked && interrupted == old(interrupted)
    {
      for i := 0 to |news|
        invariant Inv(log, turn, from) && turn.Some? == old(turn).Some? && log == old(log)
        invariant CalmEvents(news) ==> interrupted == old(interrupted)
        invariant turn.Some? ==> turn.value.committed == old(turn).value.committed
      {
        assert news[i] in news;
        match news[i] {
          case ToolNews(id, name, status, isErr, terminal, streamed) =>
            NoteTool(id, name, status, isErr, terminal, streamed);
          case Interrupt => interrupted := true;
          case Panic => return true;
          case _ =>
        }
      }
      return false;
    }

    /** runTurn: one prompt, driven to its end, or to a panic and its recovery, or as far as
        rounds goes. Whatever the provider, the tools, the user and the process do, nothing
        in the log is lost, and every call from the old tail on is answered, unless the last
        round was cut short after a message with an incomplete call was sealed: exactly then
        not. What an earlier turn left open further up stays as it is. */
    method RunTurn(prompt: Event, rounds: seq<Env>)
      returns (ended: bool, ghost cut: Option<Message>, ghost crashed: bool)
      requires turn == None && prompt.Prompt?
      requires forall env :: env in rounds ==> ProviderOk(env.events) && NewsOk(env.toolNews)
      modifies this
      ensures ended ==> turn == None
      ensures Repaired(old(log)) + [PromptMessage(prompt)] <= log
      ensures cut.None? ==> Settled(log, TailOf(old(log)))
      ensures cut.Some? ==> ended && exists env :: env in rounds && SealedBy(cut.value, env.events)
      ensures cut.Some? && !crashed ==> (Settled(log, TailOf(old(log))) <==> AllComplete(cut.value.content))
      ensures cut.Some? && crashed ==> (Settled(log, TailOf(old(log))) <==> Answerable(cut.value))
      ensures (forall env :: env in rounds ==> SealsComplete(env.events)) ==> Settled(log, TailOf(old(log)))
      ensures (forall env :: env in rounds ==> CalmRound(env)) ==> Settled(log, TailOf(old(log)))
      ensures OnlyTailOpen(old(log)) && Settled(log, TailOf(old(log))) ==> Settled(log)
    {
      hide Settled, OnlyTailOpen, ProviderOk, NewsOk, SealedBy, CalmRound, SealsComplete, Repaired, Answerable, TailOf;
      ghost var before := log;
      from := TailOf(log);
      TailAlone(log);
      forall longer | OnlyTailOpen(before) && before <= longer && Settled(longer, TailOf(before))
        ensures Settled(longer)
      {
        SettledInAll(before, longer);
      }
      interrupted := false;
      RepairInterruptedTail();
      PromptHasNoCalls(prompt);
      SettledAppend(log, PromptMessage(prompt), from);
      log := log + [PromptMessage(prompt)];
      ghost var start := log;
      turn := Some(NEW_TURN);
      FreshTurnInv(log, turn, from);
      cut, crashed := None, false;
      for i := 0 to |rounds|
        invariant Inv(log, turn, from) && Settled(log, from) && start <= log && (turn == None || turn == Some(NEW_TURN))
        invariant cut.None? && !crashed
        invariant (forall env :: env in rounds ==> CalmRound(env)) ==> !interrupted
        invariant from == TailOf(before)
      {
        assert rounds[i] in rounds;
        var out;
        out, cut := DriveOneRound(i > 0, rounds[i]);
        if out.Panicked? {
          cut := LeftToSeal();
          crashed := true;
          Recover();
          CutIsSealed(cut, rounds[i]);
          return true, cut, true;
        }
        if out.Done? {
          CutIsSealed(cut, rounds[i]);
          return true, cut, false;
        }
        FreshTurnInv(log, turn, from);
      }
      return false, None, false;
    }
  }

  /** A message that was sealed by a provider of complete calls is complete. */
  lemma CutIsSealed(cut: Option<Message>, env: Env)
    requires cut.Some? ==> SealedBy(cut.value, env.events)
    ensures cut.Some? && SealsComplete(env.events) ==> AllComplete(cut.value.content) && Answerable(cut.value)
  {
  }

  /** The place of the last message. */
  function TailOf(log: seq<Message>): nat { if log == [] then 0 else |log| - 1 }

  lemma TailAlone(log: seq<Message>)
    ensures OnlyTailOpen(log, TailOf(log))
  {
  }

  /** If nothing but the tail was open before, then nothing is. */
  lemma SettledInAll(before: seq<Message>, log: seq<Message>)
    requires OnlyTailOpen(before) && before <= log && Settled(log, TailOf(before))
    ensures Settled(log)
  {
    forall i | 0 <= i < |log| ensures Answered(log, i) {
      assert i < TailOf(before) ==> Answered(before, i);
    }
  }

  /** Results after a settled log leave it settled. */
  lemma SealTools(log: seq<Message>, t: TurnState, b: nat := 0)
    requires Settled(log, b) && forall tool :: tool in t.tools ==> tool.id != ""
    ensures Settled(Closed(log, t.tools), b)
  {
    hide Answers;
    ResultsMatchTools(t.tools);
    SettledAppend(log, Message(User, InterruptedResults(t.tools)), b);
  }

  /** Results for all calls of an assistant message that was just logged. */
  lemma SealFresh(log: seq<Message>, t: TurnState, b: nat := 0)
    requires Settled(log, b) && TurnOk(t) && !t.committed
    ensures Settled(Closed(log + [t.assistant], t.tools), b)
  {
    hide Answers;
    var tools, m := InterruptedResults(t.tools), t.assistant;
    ResultsMatchTools(t.tools);
    SettledAppend(log, m, b);
    if |tools| > 0 {
      ToAnswer(Message(User, tools), m);
      AnswerAppend(log + [m], Message(User, tools), b);
    } else {
      TailQuiet(log + [m], b);
    }
  }

  /** The log after sealing and then repairing an unsettled one. */
  lemma {:induction false} ClosedTail(log: seq<Message>, tools: seq<Tool>, b: nat := 0)
    requires OnlyTailOpen(log, b) && !Settled(log, b) && Noted(log, tools) && forall t :: t in tools ==> t.id != ""
    ensures Settled(Repaired(Closed(log, tools)), b) <==> Answerable(log[|log| - 1])
  {
    hide Answers;
    ResultsMatchTools(tools);
    ClosedSettlesIff(log, tools, b);
    if InterruptedResults(tools) == [] {
      assert |ToolIds(tools)| == 0;
      RepairSettles(log, b);
    }
  }

  lemma ToAnswer(u: Message, a: Message)
    requires u.role.User? && Ids(u.content) == CallIds(a) && forall c :: c in u.content ==> c.Result?
    ensures Answers(u, a)
  {
  }

  lemma SettledTailOpen(log: seq<Message>, b: nat := 0)
    requires Settled(log, b)
    ensures OnlyTailOpen(log, b)
  {
  }

  lemma TailQuiet(log: seq<Message>, b: nat := 0)
    requires OnlyTailOpen(log, b) && (log != [] ==> CallIds(log[|log| - 1]) == [] || Settled(log, b))
    ensures Settled(log, b)
  {
    forall i | b <= i < |log| ensures Answered(log, i) {
    }
  }
}
