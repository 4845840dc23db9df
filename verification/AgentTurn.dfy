/** One user turn of the assistant. The model is an adversary: it may answer
    anything, and every tool may return, refuse or crash. */
module AgentTurn {
  import opened Prelude

  const MAX_ITERATIONS := 5
  const TIER_SAFE := 1
  const TIER_HIGH_IMPACT := 2

  type Role = nat // viewer 0, analyst 1, admin 2

  datatype Tool = Tool(tier: nat, minRole: Role, untrusted: bool)

  type Registry = map<string, Tool>

  datatype Call = Call(id: string, name: string, args: string)

  datatype Reply = Unavailable | Message(content: string, calls: seq<Call>)

  datatype Outcome = Returned(result: string) | ToolRefused(reason: string) | Crashed

  // What the model is told about one of its calls.
  datatype Content = NotAvailable | Ran(outcome: Outcome)

  datatype Msg =
    | Plain(role: string, content: string)
    | ToolCalls(content: string, calls: seq<Call>)
    | ToolResult(callId: string, name: string, answer: Content)

  datatype Event =
    | Started(name: string)
    | Finished(name: string, ok: bool)
    | Confirm(name: string, args: string)
    | Done(text: string)
    | Error(text: string)

  datatype Execution = Execution(call: Call, tool: Tool, ok: bool)

  // prompts holds the message list of each model call.
  datatype Turn = Turn(
    messages: seq<Msg>,
    events: seq<Event>,
    executed: seq<Execution>,
    untrusted: bool,
    frozen: Option<Call>,
    prompts: seq<seq<Msg>>)

  // Everything the turn does not decide itself: the n-th model reply and the
  // outcome of the n-th tool execution.
  datatype World = World(registry: Registry, role: Role, replies: nat -> Reply, outcomes: nat -> Outcome)

  // ----- the dispatcher -----

  predicate CanCall(w: World, name: string) {
    name in w.registry && w.registry[name].minRole <= w.role
  }

  predicate Freezes(tool: Tool, untrusted: bool) {
    tool.tier >= TIER_HIGH_IMPACT || (untrusted && tool.tier >= TIER_SAFE)
  }

  function Dispatch(w: World, t: Turn, call: Call): Turn {
    if !CanCall(w, call.name) then
      t.(messages := t.messages + [ToolResult(call.id, call.name, NotAvailable)])
    else
      var tool := w.registry[call.name];
      if Freezes(tool, t.untrusted) then
        t.(events := t.events + [Confirm(call.name, call.args)], frozen := Some(call))
      else
        var outcome := w.outcomes(|t.executed|);
        t.(events := t.events + [Started(call.name), Finished(call.name, outcome.Returned?)],
           executed := t.executed + [Execution(call, tool, outcome.Returned?)],
           untrusted := t.untrusted || (outcome.Returned? && tool.untrusted),
           messages := t.messages + [ToolResult(call.id, call.name, Ran(outcome))])
  }

  /** The calls of one reply in order, up to the first that is frozen. */
  function DispatchAll(w: World, t: Turn, calls: seq<Call>): Turn {
    if calls == [] then t
    else
      var u := DispatchAll(w, t, calls[..|calls| - 1]);
      if u.frozen.Some? then u else Dispatch(w, u, calls[|calls| - 1])
  }

  // How the loop ended.
  datatype Exit = Running | Answered(text: string) | Paused | Failed

  function Iterate(w: World, t: Turn, n: nat): (Turn, Exit) {
    var u := t.(prompts := t.prompts + [t.messages]);
    match w.replies(n)
    case Unavailable => (u.(events := u.events + [Error("unavailable")]), Failed)
    case Message(content, calls) =>
      if calls == [] then (u, Answered(content))
      else
        var v := DispatchAll(w, u.(messages := u.messages + [ToolCalls(content, calls)]), calls);
        (v, if v.frozen.Some? then Paused else Running)
  }

  function Loop(w: World, t: Turn, n: nat): (Turn, Exit) {
    if n == 0 then (t, Running)
    else
      var (u, exit) := Loop(w, t, n - 1);
      if exit == Running then Iterate(w, u, n - 1) else (u, exit)
  }

  predicate IsSpace(c: char) { c in " \t\n\r" || c as int == 11 || c as int == 12 || 28 <= c as int <= 31 }

  /** The text without white space at either end. */
  function Strip(text: string): (s: string)
    ensures |s| <= |text| && (s != "" ==> !IsSpace(s[0]) && !IsSpace(s[|s| - 1]))
  {
    if text == "" then ""
    else if IsSpace(text[0]) then Strip(text[1..])
    else if IsSpace(text[|text| - 1]) then Strip(text[..|text| - 1])
    else text
  }

  function Conclude(t: Turn, exit: Exit): Turn {
    match exit
    case Running => t.(events := t.events + [Done("could not wrap up")])
    case Answered(text) => t.(events := t.events + [Done(if Strip(text) == "" then "Done." else Strip(text))])
    case _ => t
  }

  function Opening(seed: seq<Msg>): Turn { Turn(seed, [], [], false, None, []) }

  function WholeTurn(w: World, seed: seq<Msg>): Turn {
    var (t, exit) := Loop(w, Opening(seed), MAX_ITERATIONS);
    Conclude(t, exit)
  }

  // ----- the loop as it runs -----

  method DispatchCalls(w: World, start: Turn, calls: seq<Call>) returns (t: Turn)
    requires start.frozen.None?
    ensures t == DispatchAll(w, start, calls)
  {
    t := start;
    var k := 0;
    while k < |calls|
      invariant 0 <= k <= |calls| && t.frozen.None?
      invariant t == DispatchAll(w, start, calls[..k])
    {
      var call := calls[k];
      assert calls[..k + 1][..k] == calls[..k];
      if call.name !in w.registry || w.registry[call.name].minRole > w.role {
        t := t.(messages := t.messages + [ToolResult(call.id, call.name, NotAvailable)]);
        k := k + 1;
        continue;
      }
      var tool := w.registry[call.name];
      if tool.tier >= TIER_HIGH_IMPACT || (t.untrusted && tool.tier >= TIER_SAFE) {
        t := t.(events := t.events + [Confirm(call.name, call.args)], frozen := Some(call));
        FrozenStays(w, start, calls, k + 1);
        return;
      }
      t := t.(events := t.events + [Started(call.name)]);
      var outcome := w.outcomes(|t.executed|);
      var ok := outcome.Returned?;
      t := t.(executed := t.executed + [Execution(call, tool, ok)]);
      if ok && tool.untrusted {
        t := t.(untrusted := true);
      }
      t := t.(events := t.events + [Finished(call.name, ok)],
              messages := t.messages + [ToolResult(call.id, call.name, Ran(outcome))]);
      assert t.events == DispatchAll(w, start, calls[..k]).events + [Started(call.name), Finished(call.name, ok)];
      k := k + 1;
    }
    assert calls[..k] == calls;
  }

  lemma {:induction false} FrozenStays(w: World, start: Turn, calls: seq<Call>, k: nat)
    requires k <= |calls| && DispatchAll(w, start, calls[..k]).frozen.Some?
    ensures DispatchAll(w, start, calls) == DispatchAll(w, start, calls[..k])
    decreases |calls| - k
  {
    if k == |calls| {
      assert calls[..k] == calls;
    } else {
      assert calls[..k + 1][..k] == calls[..k];
      FrozenStays(w, start, calls, k + 1);
    }
  }

  lemma {:induction false} ExitStays(w: World, t: Turn, k: nat, n: nat)
    requires k <= n && Loop(w, t, k).1 != Running
    ensures Loop(w, t, n) == Loop(w, t, k)
  {
    if k < n {
      ExitStays(w, t, k, n - 1);
    }
  }

  /** A pass that ends the loop decides the turn. */
  lemma {:induction false} LastPass(w: World, seed: seq<Msg>, n: nat, t: Turn)
    requires n < MAX_ITERATIONS && Loop(w, Opening(seed), n) == (t, Running)
    ensures Loop(w, Opening(seed), n + 1) == Iterate(w, t, n)
    ensures var (u, exit) := Iterate(w, t, n); exit != Running ==> WholeTurn(w, seed) == Conclude(u, exit)
  {
    hide Iterate;
    if Iterate(w, t, n).1 != Running {
      ExitStays(w, Opening(seed), n + 1, MAX_ITERATIONS);
    }
  }

  method RunTurn(w: World, userMessage: string, configured: bool, toolCapable: bool, seed: seq<Msg>) returns (t: Turn)
    ensures Strip(userMessage) == "" ==> t == Opening([]).(events := [Error("say something")])
    ensures Strip(userMessage) != "" && !(configured && toolCapable) ==>
            exists text :: t == Opening([]).(events := [Done(text)])
    ensures Strip(userMessage) != "" && configured && toolCapable ==> t == WholeTurn(w, seed)
  {
    if Strip(userMessage) == "" {
      return Opening([]).(events := [Error("say something")]);
    }
    if !configured {
      return Opening([]).(events := [Done("no model is configured")]);
    }
    if !toolCapable {
      return Opening([]).(events := [Done("the model cannot call tools")]);
    }
    hide Dispatch, DispatchAll, Strip;
    t := Opening(seed);
    var finalText := "could not wrap up";
    var n := 0;
    while n < MAX_ITERATIONS
      invariant 0 <= n <= MAX_ITERATIONS && t.frozen.None?
      invariant Loop(w, Opening(seed), n) == (t, Running)
      invariant finalText == "could not wrap up"
    {
      hide Loop, WholeTurn;
      LastPass(w, seed, n, t);
      ghost var before := t;
      t := t.(prompts := t.prompts + [t.messages]);
      var reply := w.replies(n);
      if reply.Unavailable? {
        t := t.(events := t.events + [Error("unavailable")]);
        return;
      }
      if reply.calls == [] {
        finalText := Strip(reply.content);
        break;
      }
      t := t.(messages := t.messages + [ToolCalls(reply.content, reply.calls)]);
      t := DispatchCalls(w, t, reply.calls);
      assert Iterate(w, before, n).0 == t;
      if t.frozen.Some? {
        return;
      }
      n := n + 1;
    }
    if finalText == "" {
      finalText := "Done.";
    }
    t := t.(events := t.events + [Done(finalText)]);
  }

  // ----- what holds for every model and every tool -----

  /** The tool results answer the calls one for one, in order. */
  ghost predicate Answers(results: seq<Msg>, calls: seq<Call>) {
    |results| == |calls| &&
    forall k :: 0 <= k < |calls| ==>
        results[k].ToolResult? && results[k].callId == calls[k].id && results[k].name == calls[k].name
  }

  /** Plain messages, and blocks of tool calls each followed by its answers. */
  ghost predicate WellFormed(msgs: seq<Msg>) {
    msgs == [] ||
    (exists k :: 0 <= k < |msgs| && WellFormed(msgs[..k]) && Block(msgs[k..]))
  }

  ghost predicate Block(msgs: seq<Msg>)
    requires msgs != []
  {
    if msgs[0].Plain? then |msgs| == 1 else msgs[0].ToolCalls? && Answers(msgs[1..], msgs[0].calls)
  }

  ghost predicate Clean(seed: seq<Msg>) { forall k :: 0 <= k < |seed| ==> seed[k].Plain? }

  lemma {:induction false} CleanWellFormed(seed: seq<Msg>)
    requires Clean(seed)
    ensures WellFormed(seed)
  {
    if seed != [] {
      CleanWellFormed(seed[..|seed| - 1]);
      assert Block(seed[|seed| - 1..]);
    }
  }

  /** Untrusted text is in the context once such a tool has succeeded. */
  predicate Tainted(executed: seq<Execution>) {
    exists k :: 0 <= k < |executed| && executed[k].ok && executed[k].tool.untrusted
  }

  ghost predicate SafeExecutions(w: World, executed: seq<Execution>) {
    && (forall k :: 0 <= k < |executed| ==>
          CanCall(w, executed[k].call.name) && executed[k].tool == w.registry[executed[k].call.name]
          && executed[k].tool.tier < TIER_HIGH_IMPACT)
    && (forall j, k :: 0 <= j < k < |executed| && executed[j].ok && executed[j].tool.untrusted ==>
          executed[k].tool.tier < TIER_SAFE)
  }

  predicate Final(e: Event) { e.Done? || e.Error? || e.Confirm? }

  /** Which calls the transcript says were run: exactly the executed ones. */
  function RunCalls(msgs: seq<Msg>): seq<(string, string)> {
    if msgs == [] then []
    else
      var last := msgs[|msgs| - 1];
      RunCalls(msgs[..|msgs| - 1]) + (if last.ToolResult? && last.answer.Ran? then [(last.callId, last.name)] else [])
  }

  function ExecutedCalls(executed: seq<Execution>): seq<(string, string)> {
    seq(|executed|, k requires 0 <= k < |executed| => (executed[k].call.id, executed[k].call.name))
  }

  ghost predicate TurnInv(w: World, t: Turn) {
    && SafeExecutions(w, t.executed)
    && t.untrusted == Tainted(t.executed)
    && RunCalls(t.messages) == ExecutedCalls(t.executed)
    && (forall k :: 0 <= k < |t.messages| && t.messages[k].ToolResult? && t.messages[k].answer.NotAvailable? ==>
          !CanCall(w, t.messages[k].name))
    && (forall k :: 0 <= k < |t.prompts| ==> WellFormed(t.prompts[k]))
    && (t.frozen.Some? ==>
          && CanCall(w, t.frozen.value.name) && Freezes(w.registry[t.frozen.value.name], Tainted(t.executed))
          && t.events != [] && t.events[|t.events| - 1] == Confirm(t.frozen.value.name, t.frozen.value.args))
    && (forall k :: 0 <= k < |t.events| && Final(t.events[k]) ==> t.frozen.Some? && k == |t.events| - 1)
  }

  lemma {:induction false} RunCallsSnoc(msgs: seq<Msg>, m: Msg)
    ensures RunCalls(msgs + [m])
            == RunCalls(msgs) + (if m.ToolResult? && m.answer.Ran? then [(m.callId, m.name)] else [])
  {
    assert (msgs + [m])[..|msgs|] == msgs;
  }

  lemma TaintedSnoc(executed: seq<Execution>, e: Execution)
    ensures Tainted(executed + [e]) == (Tainted(executed) || (e.ok && e.tool.untrusted))
  {
    if Tainted(executed) {
      var k :| 0 <= k < |executed| && executed[k].ok && executed[k].tool.untrusted;
      assert (executed + [e])[k] == executed[k];
    }
    assert (executed + [e])[|executed|] == e;
  }

  lemma ExecuteKeeps(w: World, t: Turn, call: Call)
    requires TurnInv(w, t) && t.frozen.None? && CanCall(w, call.name) && !Freezes(w.registry[call.name], t.untrusted)
    ensures TurnInv(w, Dispatch(w, t, call))
  {
    hide WellFormed;
    var u := Dispatch(w, t, call);
    var e := u.executed[|t.executed|];
    RunCallsSnoc(t.messages, u.messages[|t.messages|]);
    TaintedSnoc(t.executed, e);
    forall j, k | 0 <= j < k < |u.executed| && u.executed[j].ok && u.executed[j].tool.untrusted
      ensures u.executed[k].tool.tier < TIER_SAFE
    {
      if k == |t.executed| {
        assert t.executed[j].ok && t.executed[j].tool.untrusted;
        assert Tainted(t.executed);
      }
    }
    assert ExecutedCalls(u.executed) == ExecutedCalls(t.executed) + [(call.id, call.name)];
  }

  lemma DispatchKeeps(w: World, t: Turn, call: Call)
    requires TurnInv(w, t) && t.frozen.None?
    ensures TurnInv(w, Dispatch(w, t, call))
  {
    if !CanCall(w, call.name) {
      RunCallsSnoc(t.messages, ToolResult(call.id, call.name, NotAvailable));
    } else if !Freezes(w.registry[call.name], t.untrusted) {
      ExecuteKeeps(w, t, call);
    }
  }

  predicate AnswersOne(m: Msg, call: Call) {
    m.ToolResult? && m.callId == call.id && m.name == call.name
  }

  /** A dispatched call is answered by one message or frozen. */
  lemma DispatchAnswers(w: World, t: Turn, call: Call)
    requires t.frozen.None?
    ensures var u := Dispatch(w, t, call);
            && u.prompts == t.prompts
            && (u.frozen.Some? ==> u.frozen.value == call)
            && (u.frozen.None? ==>
                  && |u.messages| == |t.messages| + 1 && u.messages[..|t.messages|] == t.messages
                  && AnswersOne(u.messages[|t.messages|], call))
  {
  }

  lemma {:induction false} AnswersSnoc(base: seq<Msg>, msgs: seq<Msg>, longer: seq<Msg>, calls: seq<Call>, call: Call)
    requires |base| <= |msgs| && msgs[..|base|] == base && Answers(msgs[|base|..], calls)
    requires |longer| == |msgs| + 1 && longer[..|msgs|] == msgs && AnswersOne(longer[|msgs|], call)
    ensures longer[..|base|] == base && Answers(longer[|base|..], calls + [call])
  {
    assert longer[..|base|] == longer[..|msgs|][..|base|];
    assert longer[|base|..] == msgs[|base|..] + [longer[|msgs|]];
  }

  /** Either every call got its answer, or one was frozen. */
  lemma {:induction false} DispatchAllKeeps(w: World, t: Turn, calls: seq<Call>)
    requires TurnInv(w, t) && t.frozen.None?
    ensures var u := DispatchAll(w, t, calls);
            && TurnInv(w, u) && u.prompts == t.prompts
            && (u.frozen.None? ==> |t.messages| <= |u.messages| && u.messages[..|t.messages|] == t.messages
                                   && Answers(u.messages[|t.messages|..], calls))
            && (u.frozen.Some? ==> u.frozen.value in calls)
  {
    hide TurnInv, Dispatch, AnswersOne;
    if calls != [] {
      var n := |calls| - 1;
      DispatchAllKeeps(w, t, calls[..n]);
      var u := DispatchAll(w, t, calls[..n]);
      if u.frozen.None? {
        DispatchKeeps(w, u, calls[n]);
        DispatchAnswers(w, u, calls[n]);
        var v := Dispatch(w, u, calls[n]);
        if v.frozen.None? {
          AnswersSnoc(t.messages, u.messages, v.messages, calls[..n], calls[n]);
          assert calls[..n] + [calls[n]] == calls;
        }
      }
    }
  }

  lemma {:induction false} WellFormedBlock(msgs: seq<Msg>, content: string, calls: seq<Call>, results: seq<Msg>)
    requires WellFormed(msgs) && Answers(results, calls)
    ensures WellFormed(msgs + [ToolCalls(content, calls)] + results)
  {
    var longer := msgs + [ToolCalls(content, calls)] + results;
    assert longer[..|msgs|] == msgs && longer[|msgs|..][1..] == results;
    assert Block(longer[|msgs|..]);
  }

  /** Every state the loop passes through. */
  ghost predicate LoopInv(w: World, t: Turn, exit: Exit, n: nat) {
    && |t.prompts| <= n
    && (exit == Failed ==>
          && t.frozen.None? && t.events != [] && t.events[|t.events| - 1].Error?
          && TurnInv(w, t.(events := t.events[..|t.events| - 1])))
    && (exit != Failed ==> TurnInv(w, t))
    && (exit == Paused <==> t.frozen.Some?)
    && (exit == Running ==> WellFormed(t.messages))
  }

  lemma {:induction false} PromptKeeps(w: World, t: Turn)
    requires TurnInv(w, t) && WellFormed(t.messages)
    ensures TurnInv(w, t.(prompts := t.prompts + [t.messages]))
  {
    hide WellFormed, SafeExecutions, RunCalls, ExecutedCalls;
  }

  lemma CallsMessageKeeps(w: World, t: Turn, content: string, calls: seq<Call>)
    requires TurnInv(w, t)
    ensures TurnInv(w, t.(messages := t.messages + [ToolCalls(content, calls)]))
  {
    hide WellFormed, SafeExecutions, ExecutedCalls;
    RunCallsSnoc(t.messages, ToolCalls(content, calls));
  }

  lemma IterateKeeps(w: World, t: Turn, n: nat)
    requires LoopInv(w, t, Running, n)
    ensures LoopInv(w, Iterate(w, t, n).0, Iterate(w, t, n).1, n + 1)
  {
    hide TurnInv, WellFormed;
    var u := t.(prompts := t.prompts + [t.messages]);
    PromptKeeps(w, t);
    if w.replies(n).Unavailable? {
      var v := Iterate(w, t, n).0;
      assert v.(events := v.events[..|v.events| - 1]) == u;
    } else if w.replies(n).calls != [] {
      var content, calls := w.replies(n).content, w.replies(n).calls;
      var v := u.(messages := u.messages + [ToolCalls(content, calls)]);
      CallsMessageKeeps(w, u, content, calls);
      DispatchAllKeeps(w, v, calls);
      var z := DispatchAll(w, v, calls);
      if z.frozen.None? {
        WellFormedBlock(t.messages, content, calls, z.messages[|v.messages|..]);
        assert z.messages == z.messages[..|v.messages|] + z.messages[|v.messages|..];
      }
    }
  }

  lemma LoopStarts(w: World, seed: seq<Msg>)
    requires Clean(seed)
    ensures LoopInv(w, Opening(seed), Running, 0)
  {
    CleanWellFormed(seed);
    NothingRun(seed);
  }

  lemma {:induction false} LoopKeeps(w: World, seed: seq<Msg>, n: nat)
    requires Clean(seed)
    ensures LoopInv(w, Loop(w, Opening(seed), n).0, Loop(w, Opening(seed), n).1, n)
  {
    hide LoopInv, Iterate, Opening, Clean;
    if n == 0 {
      LoopStarts(w, seed);
    } else {
      LoopKeeps(w, seed, n - 1);
      var (u, exit) := Loop(w, Opening(seed), n - 1);
      if exit == Running {
        IterateKeeps(w, u, n - 1);
      } else {
        LoopInvLater(w, u, exit, n - 1);
      }
    }
  }

  lemma LoopInvLater(w: World, t: Turn, exit: Exit, n: nat)
    requires LoopInv(w, t, exit, n)
    ensures LoopInv(w, t, exit, n + 1)
  {
  }

  lemma {:induction false} NothingRun(seed: seq<Msg>)
    requires Clean(seed)
    ensures RunCalls(seed) == []
  {
    if seed != [] {
      NothingRun(seed[..|seed| - 1]);
    }
  }

  /** For every model, every tool behaviour and every clean context: nothing of
      tier 2 or above runs inline; after a successful untrusted tool nothing of
      tier 1 or above runs; everything run is allowed to the role and is what
      the transcript reports; a call is frozen only when it must be; there are
      at most five model calls, each with a well-formed transcript; and the turn
      ends with exactly one done, error or confirm event. */
  lemma {:induction false} TurnSafety(w: World, seed: seq<Msg>)
    requires Clean(seed)
    ensures var t := WholeTurn(w, seed);
            && SafeExecutions(w, t.executed)
            && RunCalls(t.messages) == ExecutedCalls(t.executed)
            && (forall k :: 0 <= k < |t.messages| && t.messages[k].ToolResult? && t.messages[k].answer.NotAvailable? ==>
                  !CanCall(w, t.messages[k].name))
            && |t.prompts| <= MAX_ITERATIONS
            && (forall k :: 0 <= k < |t.prompts| ==> WellFormed(t.prompts[k]))
            && (t.frozen.Some? ==>
                  CanCall(w, t.frozen.value.name) && Freezes(w.registry[t.frozen.value.name], Tainted(t.executed)))
            && t.events != []
            && (forall k :: 0 <= k < |t.events| ==> (Final(t.events[k]) <==> k == |t.events| - 1))
            && (t.events[|t.events| - 1].Confirm? <==> t.frozen.Some?)
            && (t.frozen.Some? ==> t.events[|t.events| - 1] == Confirm(t.frozen.value.name, t.frozen.value.args))
  {
    hide WellFormed, SafeExecutions;
    LoopKeeps(w, seed, MAX_ITERATIONS);
    var (t, exit) := Loop(w, Opening(seed), MAX_ITERATIONS);
    var whole := WholeTurn(w, seed);
    if exit == Failed {
      var cut := t.(events := t.events[..|t.events| - 1]);
      assert TurnInv(w, cut);
      forall k | 0 <= k < |t.events| - 1 ensures !Final(t.events[k]) {
        assert cut.events[k] == t.events[k];
      }
    }
  }
}
