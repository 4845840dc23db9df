/** What one turn does, told from the replies of the model and the outcomes of
    the tools: every call, every answer and the one text the user is shown. */
module AgentReply {
  import opened Prelude
  import opened AgentTurn

  // ----- stripping -----

  /** Space, tab to carriage return, and the four separators. */
  predicate White(c: char) { c == ' ' || 9 <= c as int <= 13 || 28 <= c as int <= 31 }

  /** s is text without the white space at its ends, and with all else. */
  predicate Trims(text: string, s: string, i: nat, j: nat) {
    && i <= j <= |text| && s == text[i..j]
    && (forall k :: 0 <= k < i ==> White(text[k])) && (forall k :: j <= k < |text| ==> White(text[k]))
    && (i < j ==> !White(text[i]) && !White(text[j - 1]))
  }

  lemma SpaceIsWhite(c: char)
    ensures IsSpace(c) <==> White(c)
  {
  }

  lemma TrimsFront(text: string, s: string, i: nat, j: nat)
    requires text != "" && White(text[0]) && Trims(text[1..], s, i, j)
    ensures Trims(text, s, i + 1, j + 1)
  {
    hide White;
    var rest := text[1..];
    assert forall k :: 0 <= k < |rest| ==> rest[k] == text[k + 1];
    forall k | 0 <= k < i + 1 ensures White(text[k]) {
      assert k > 0 ==> rest[k - 1] == text[k];
    }
    forall k | j + 1 <= k < |text| ensures White(text[k]) {
      assert rest[k - 1] == text[k];
    }
  }

  lemma TrimsBack(text: string, s: string, i: nat, j: nat)
    requires text != "" && White(text[|text| - 1]) && Trims(text[..|text| - 1], s, i, j)
    ensures Trims(text, s, i, j)
  {
    hide White;
    var rest := text[..|text| - 1];
    assert forall k :: 0 <= k < |rest| ==> rest[k] == text[k];
    assert text[i..j] == rest[i..j];
  }

  lemma {:induction false} StripExactly(text: string) returns (i: nat, j: nat)
    ensures Trims(text, Strip(text), i, j)
  {
    hide White, IsSpace;
    i, j := 0, |text|;
    if text == "" {
      hide Trims;
      TrimsNothing();
    } else {
      SpaceIsWhite(text[0]);
      SpaceIsWhite(text[|text| - 1]);
      if IsSpace(text[0]) {
        hide Trims;
        i, j := StripExactly(text[1..]);
        TrimsFront(text, Strip(text), i, j);
        i, j := i + 1, j + 1;
      } else if IsSpace(text[|text| - 1]) {
        hide Trims;
        i, j := StripExactly(text[..|text| - 1]);
        TrimsBack(text, Strip(text), i, j);
      }
    }
  }

  lemma TrimsNothing()
    ensures Strip("") == "" && Trims("", "", 0, 0)
  {
  }

  // ----- the calls -----

  predicate Allowed(w: World, name: string) { name in w.registry && w.registry[name].minRole <= w.role }

  predicate MustConfirm(tool: Tool, tainted: bool) { tool.tier >= 2 || (tainted && tool.tier >= 1) }

  /** The calls that may be run at all. */
  function Runnable(w: World, calls: seq<Call>): seq<Call> {
    if calls == [] then []
    else
      var last := calls[|calls| - 1];
      Runnable(w, calls[..|calls| - 1]) + if Allowed(w, last.name) then [last] else []
  }

  lemma {:induction false} RunnableConcat(w: World, a: seq<Call>, b: seq<Call>)
    ensures Runnable(w, a + b) == Runnable(w, a) + Runnable(w, b)
  {
    if b == [] {
      assert a + b == a;
    } else {
      RunnableConcat(w, a, b[..|b| - 1]);
      assert (a + b)[..|a + b| - 1] == a + b[..|b| - 1];
    }
  }

  function RanCalls(executed: seq<Execution>): seq<Call> {
    seq(|executed|, k requires 0 <= k < |executed| => executed[k].call)
  }

  /** What the user sees of the executions: a start and an end of each. */
  function Progress(executed: seq<Execution>): seq<Event> {
    if executed == [] then []
    else
      var e := executed[|executed| - 1];
      Progress(executed[..|executed| - 1]) + [Started(e.call.name), Finished(e.call.name, e.ok)]
  }

  /** The outcomes that the transcript reports, in order. */
  function Reported(msgs: seq<Msg>): seq<Outcome> {
    if msgs == [] then []
    else
      var last := msgs[|msgs| - 1];
      Reported(msgs[..|msgs| - 1]) + if last.ToolResult? && last.answer.Ran? then [last.answer.outcome] else []
  }

  /** What the first n executions came to. */
  function Outcomes(w: World, n: nat): seq<Outcome> { if n == 0 then [] else Outcomes(w, n - 1) + [w.outcomes(n - 1)] }

  lemma {:induction false} ReportedSnoc(msgs: seq<Msg>, m: Msg)
    ensures Reported(msgs + [m]) == Reported(msgs) + if m.ToolResult? && m.answer.Ran? then [m.answer.outcome] else []
  {
    assert (msgs + [m])[..|msgs|] == msgs;
  }

  predicate TaintedBy(executed: seq<Execution>) {
    exists k :: 0 <= k < |executed| && executed[k].ok && executed[k].tool.untrusted
  }

  /** Each execution was allowed, is the tool of that name, and came out as told. */
  ghost predicate Executions(w: World, executed: seq<Execution>) {
    forall k :: 0 <= k < |executed| ==>
      && Allowed(w, executed[k].call.name) && executed[k].tool == w.registry[executed[k].call.name]
      && executed[k].ok == w.outcomes(k).Returned?
      && !MustConfirm(executed[k].tool, TaintedBy(executed[..k]))
  }

  ghost predicate Faithful(w: World, t: Turn) {
    && Executions(w, t.executed)
    && Reported(t.messages) == Outcomes(w, |t.executed|)
    && t.events == Progress(t.executed)
                   + (if t.frozen.Some? then [Confirm(t.frozen.value.name, t.frozen.value.args)] else [])
    && t.untrusted == TaintedBy(t.executed)
    && (t.frozen.Some? ==>
          && Allowed(w, t.frozen.value.name)
          && MustConfirm(w.registry[t.frozen.value.name], TaintedBy(t.executed)))
  }

  lemma TaintedMore(executed: seq<Execution>, e: Execution)
    ensures TaintedBy(executed + [e]) <==> TaintedBy(executed) || (e.ok && e.tool.untrusted)
  {
    var more := executed + [e];
    assert more[|executed|] == e;
    if k :| 0 <= k < |executed| && executed[k].ok && executed[k].tool.untrusted {
      assert more[k] == executed[k];
    }
  }

  lemma ExecutionsMore(w: World, executed: seq<Execution>, e: Execution)
    requires Executions(w, executed) && Allowed(w, e.call.name) && e.tool == w.registry[e.call.name]
    requires e.ok == w.outcomes(|executed|).Returned? && !MustConfirm(e.tool, TaintedBy(executed))
    ensures Executions(w, executed + [e])
  {
    hide Allowed, MustConfirm, TaintedBy;
    var more := executed + [e];
    assert more[..|executed|] == executed;
    forall k | 0 <= k < |executed| ensures more[..k] == executed[..k] && more[k] == executed[k] {}
  }

  lemma RunsAs(w: World, t: Turn, call: Call)
    requires Allowed(w, call.name) && !MustConfirm(w.registry[call.name], t.untrusted)
    ensures var tool, outcome := w.registry[call.name], w.outcomes(|t.executed|);
            var u := Dispatch(w, t, call);
            && u.events == t.events + [Started(call.name), Finished(call.name, outcome.Returned?)]
            && u.executed == t.executed + [Execution(call, tool, outcome.Returned?)]
            && u.untrusted == (t.untrusted || (outcome.Returned? && tool.untrusted))
            && u.messages == t.messages + [ToolResult(call.id, call.name, Ran(outcome))]
            && u.frozen == t.frozen && u.prompts == t.prompts
  {
  }

  lemma {:induction false} ListsMore(executed: seq<Execution>, e: Execution)
    ensures Progress(executed + [e]) == Progress(executed) + [Started(e.call.name), Finished(e.call.name, e.ok)]
    ensures RanCalls(executed + [e]) == RanCalls(executed) + [e.call]
  {
    assert (executed + [e])[..|executed|] == executed;
  }

  lemma OutcomesMore(w: World, n: nat)
    ensures Outcomes(w, n + 1) == Outcomes(w, n) + [w.outcomes(n)]
  {
  }

  lemma {:induction false} OneMoreRun(w: World, t: Turn, call: Call)
    requires Faithful(w, t) && t.frozen.None? && Allowed(w, call.name)
    requires !MustConfirm(w.registry[call.name], t.untrusted)
    ensures Faithful(w, Dispatch(w, t, call))
    ensures RanCalls(Dispatch(w, t, call).executed) == RanCalls(t.executed) + [call]
  {
    hide Dispatch, Executions, TaintedBy, Reported, Progress, RanCalls, Outcomes, MustConfirm;
    RunsAs(w, t, call);
    var e := Execution(call, w.registry[call.name], w.outcomes(|t.executed|).Returned?);
    ReportedSnoc(t.messages, ToolResult(call.id, call.name, Ran(w.outcomes(|t.executed|))));
    TaintedMore(t.executed, e);
    ExecutionsMore(w, t.executed, e);
    ListsMore(t.executed, e);
    OutcomesMore(w, |t.executed|);
  }

  lemma {:induction false} OneMoreCall(w: World, t: Turn, call: Call)
    requires Faithful(w, t) && t.frozen.None?
    ensures var u := Dispatch(w, t, call);
            && Faithful(w, u)
            && (u.frozen.None? ==> RanCalls(u.executed) == RanCalls(t.executed) + Runnable(w, [call]))
            && (u.frozen.Some? ==> u.frozen == Some(call) && u.executed == t.executed)
            && (u.frozen.None? ==> u.messages == t.messages + [u.messages[|u.messages| - 1]]
                                   && AnswersTo(w, u.messages[|u.messages| - 1], call))
  {
    OneRunnable(w, call);
    hide Executions, TaintedBy, Reported, Progress, RanCalls, Outcomes, Runnable;
    if !Allowed(w, call.name) {
      ReportedSnoc(t.messages, ToolResult(call.id, call.name, NotAvailable));
    } else if !MustConfirm(w.registry[call.name], t.untrusted) {
      OneMoreRun(w, t, call);
    }
  }

  lemma {:induction false} OneRunnable(w: World, call: Call)
    ensures Runnable(w, [call]) == if Allowed(w, call.name) then [call] else []
  {
    assert [call][..0] == [];
  }

  /** The answer names its call, and says "not available" exactly of calls that are not. */
  predicate AnswersTo(w: World, m: Msg, call: Call) {
    m.ToolResult? && m.callId == call.id && m.name == call.name
    && (m.answer == NotAvailable <==> !Allowed(w, call.name))
  }

  predicate AnswersAll(w: World, answers: seq<Msg>, calls: seq<Call>) {
    |answers| == |calls| && forall k :: 0 <= k < |calls| ==> AnswersTo(w, answers[k], calls[k])
  }

  /** The calls of one reply: run and answered in order, up to one that is frozen. */
  lemma {:induction false} CallsExactly(w: World, t: Turn, calls: seq<Call>) returns (n: nat)
    requires Faithful(w, t) && t.frozen.None?
    ensures n <= |calls|
    ensures var u := DispatchAll(w, t, calls);
            && Faithful(w, u) && u.prompts == t.prompts
            && RanCalls(u.executed) == RanCalls(t.executed) + Runnable(w, calls[..n])
            && (if n < |calls| then u.frozen == Some(calls[n]) else u.frozen.None?)
            && (u.frozen.None? ==> t.messages <= u.messages && AnswersAll(w, u.messages[|t.messages|..], calls))
  {
    hide Faithful, AnswersTo, Dispatch, Runnable;
    n := 0;
    if calls == [] {
      assert Runnable(w, calls[..0]) == [] by { NoneRunnable(w); }
    } else {
      var last := |calls| - 1;
      n := CallsExactly(w, t, calls[..last]);
      var u := DispatchAll(w, t, calls[..last]);
      assert calls[..last][..n] == calls[..n];
      if u.frozen.None? {
        OneMoreCall(w, u, calls[last]);
        SamePrompts(w, u, calls[last]);
        var v := Dispatch(w, u, calls[last]);
        if v.frozen.None? {
          n := |calls|;
          RunnableConcat(w, calls[..last], [calls[last]]);
          assert calls[..last] + [calls[last]] == calls == calls[..n];
          assert RanCalls(t.executed) + Runnable(w, calls[..last]) + Runnable(w, [calls[last]])
              == RanCalls(t.executed) + (Runnable(w, calls[..last]) + Runnable(w, [calls[last]]));
          AnswersMore(w, t.messages, u.messages, v.messages, calls, last);
        }
      }
    }
  }

  lemma NoneRunnable(w: World)
    ensures Runnable(w, []) == []
  {
  }

  lemma SamePrompts(w: World, t: Turn, call: Call)
    ensures Dispatch(w, t, call).prompts == t.prompts
  {
  }

  lemma AnswersMore(w: World, base: seq<Msg>, msgs: seq<Msg>, longer: seq<Msg>, calls: seq<Call>, n: nat)
    requires base <= msgs && |calls| == n + 1 && AnswersAll(w, msgs[|base|..], calls[..n])
    requires |longer| == |msgs| + 1 && longer == msgs + [longer[|msgs|]] && AnswersTo(w, longer[|msgs|], calls[n])
    ensures base <= longer && AnswersAll(w, longer[|base|..], calls)
  {
    hide AnswersTo;
    var answers := longer[|base|..];
    assert answers == msgs[|base|..] + [longer[|msgs|]];
    forall k | 0 <= k < |calls| ensures AnswersTo(w, answers[k], calls[k]) {
      if k < n {
        assert msgs[|base|..][k] == answers[k] && calls[..n][k] == calls[k];
      }
    }
  }

  // ----- the passes -----

  /** The message list of pass i, or the one after the last pass. */
  function At(t: Turn, i: nat): seq<Msg> { if i < |t.prompts| then t.prompts[i] else t.messages }

  /** Pass i asked for tools and got one answer to each of its calls. */
  ghost predicate Pass(w: World, before: seq<Msg>, after: seq<Msg>, i: nat) {
    && w.replies(i).Message? && w.replies(i).calls != []
    && var asked := before + [ToolCalls(w.replies(i).content, w.replies(i).calls)];
       asked <= after && AnswersAll(w, after[|asked|..], w.replies(i).calls)
  }

  /** The first n passes all asked for tools. */
  ghost predicate Passes(w: World, seed: seq<Msg>, t: Turn, n: nat) {
    At(t, 0) == seed && forall i :: 0 <= i < n ==> Pass(w, At(t, i), At(t, i + 1), i)
  }

  /** All calls of the first n replies. */
  function Offered(w: World, n: nat): seq<Call> {
    if n == 0 then []
    else Offered(w, n - 1) + match w.replies(n - 1) case Message(_, calls) => calls case Unavailable => []
  }

  ghost predicate Under(w: World, seed: seq<Msg>, t: Turn, n: nat) {
    && Faithful(w, t) && t.frozen.None? && |t.prompts| == n && Passes(w, seed, t, n)
    && RanCalls(t.executed) == Runnable(w, Offered(w, n))
  }

  /** How the turn ended, the last pass being number n. */
  ghost predicate Over(w: World, seed: seq<Msg>, t: Turn, exit: Exit, n: nat) {
    && |t.prompts| == n + 1 && Passes(w, seed, t, n)
    && match exit
       case Running => false
       case Failed =>
         && w.replies(n) == Unavailable && t.frozen.None? && Executions(w, t.executed)
         && t.events == Progress(t.executed) + [Error("unavailable")]
         && Reported(t.messages) == Outcomes(w, |t.executed|)
         && RanCalls(t.executed) == Runnable(w, Offered(w, n))
       case Answered(text) =>
         && w.replies(n) == Message(text, []) && t.frozen.None? && Faithful(w, t)
         && RanCalls(t.executed) == Runnable(w, Offered(w, n))
       case Paused =>
         && w.replies(n).Message? && Faithful(w, t) && t.frozen.Some?
         && exists k :: 0 <= k < |w.replies(n).calls| && t.frozen == Some(w.replies(n).calls[k])
              && RanCalls(t.executed) == Runnable(w, Offered(w, n)) + Runnable(w, w.replies(n).calls[..k])
  }

  lemma PassesOn(w: World, seed: seq<Msg>, t: Turn, u: Turn, n: nat)
    requires Passes(w, seed, t, n) && |t.prompts| == n
    requires u.prompts == t.prompts + [t.messages]
    ensures Passes(w, seed, u, n)
  {
    hide Pass;
    assert forall i :: 0 <= i <= n ==> At(u, i) == At(t, i);
  }

  lemma {:induction false} OnePass(w: World, seed: seq<Msg>, t: Turn, n: nat)
    requires Under(w, seed, t, n)
    ensures var (u, exit) := Iterate(w, t, n);
            if exit == Running then Under(w, seed, u, n + 1) else Over(w, seed, u, exit, n)
  {
    hide Executions, Pass, Passes, Offered, Runnable, RanCalls, Reported, Progress;
    var (u, exit) := Iterate(w, t, n);
    var v := t.(prompts := t.prompts + [t.messages]);
    PassesOn(w, seed, t, v, n);
    match w.replies(n)
    case Unavailable =>
      PassesOn(w, seed, t, u, n);
    case Message(content, calls) =>
      if calls != [] {
        ToolPass(w, seed, t, n, content, calls);
      }
  }

  lemma {:induction false} ToolPass(w: World, seed: seq<Msg>, t: Turn, n: nat, content: string, calls: seq<Call>)
    requires Under(w, seed, t, n) && w.replies(n) == Message(content, calls) && calls != []
    ensures var (u, exit) := Iterate(w, t, n);
            if exit == Running then Under(w, seed, u, n + 1) else Over(w, seed, u, exit, n)
  {
    hide Executions, Runnable, RanCalls, Reported, Progress, DispatchAll, AnswersAll;
    var asked := t.(prompts := t.prompts + [t.messages], messages := t.messages + [ToolCalls(content, calls)]);
    ReportedSnoc(t.messages, ToolCalls(content, calls));
    assert Faithful(w, asked);
    var k := CallsExactly(w, asked, calls);
    var u := DispatchAll(w, asked, calls);
    hide Faithful;
    PassesOn(w, seed, t, u, n);
    RunnableConcat(w, Offered(w, n), calls);
    if u.frozen.None? {
      assert calls[..k] == calls;
      assert Passes(w, seed, u, n + 1);
    }
  }

  lemma {:induction false} LoopExactly(w: World, seed: seq<Msg>, n: nat)
    requires Clean(seed)
    ensures var (t, exit) := Loop(w, Opening(seed), n);
            && (exit == Running ==> Under(w, seed, t, n))
            && (exit != Running ==> 0 < |t.prompts| <= n && Over(w, seed, t, exit, |t.prompts| - 1))
  {
    hide Under, Over, Iterate, Opening;
    if n == 0 {
      NothingYet(w, seed);
    } else {
      LoopExactly(w, seed, n - 1);
      var (t, exit) := Loop(w, Opening(seed), n - 1);
      if exit == Running {
        OnePass(w, seed, t, n - 1);
        OnePrompt(w, seed, t, n - 1);
      }
    }
  }

  lemma OnePrompt(w: World, seed: seq<Msg>, t: Turn, n: nat)
    requires Under(w, seed, t, n)
    ensures Iterate(w, t, n).1 != Running ==> |Iterate(w, t, n).0.prompts| == n + 1
  {
    OnePass(w, seed, t, n);
  }

  lemma {:induction false} NothingReported(seed: seq<Msg>)
    requires Clean(seed)
    ensures Reported(seed) == []
  {
    if seed != [] {
      NothingReported(seed[..|seed| - 1]);
    }
  }

  lemma NothingYet(w: World, seed: seq<Msg>)
    requires Clean(seed)
    ensures Under(w, seed, Opening(seed), 0)
  {
    NothingReported(seed);
    assert RanCalls([]) == [] && Progress([]) == [] && Runnable(w, []) == [];
  }

  // ----- the whole turn -----

  /** What ends the event stream: of the last reply without calls its own text,
      stripped; "Done." if that is empty; a fixed text after five replies that all
      asked for tools; an error if the model is unavailable; else the frozen call. */
  function LastWord(w: World, t: Turn, m: nat): Event
    requires m > 0
  {
    if t.frozen.Some? then Confirm(t.frozen.value.name, t.frozen.value.args)
    else
      match w.replies(m - 1)
      case Unavailable => Error("unavailable")
      case Message(content, calls) =>
        if calls != [] then Done("could not wrap up")
        else if Strip(content) == "" then Done("Done.") else Done(Strip(content))
  }

  function LastCalls(w: World, m: nat): seq<Call>
    requires m > 0
  {
    match w.replies(m - 1) case Message(_, calls) => calls case Unavailable => []
  }

  /** What a finished turn is, m being the number of model calls and k that of the
      last reply's calls that were settled. */
  ghost predicate Told(w: World, seed: seq<Msg>, t: Turn, k: nat) {
    var m := |t.prompts|;
    && 0 < m <= 5 && Passes(w, seed, t, m - 1)
    && (t.frozen.None? && LastCalls(w, m) != [] ==> m == 5 && Passes(w, seed, t, 5))
    && t.events == Progress(t.executed) + [LastWord(w, t, m)]
    && Executions(w, t.executed) && Reported(t.messages) == Outcomes(w, |t.executed|)
    && k <= |LastCalls(w, m)|
    && (if k < |LastCalls(w, m)| then t.frozen == Some(LastCalls(w, m)[k]) else t.frozen.None?)
    && RanCalls(t.executed) == Runnable(w, Offered(w, m - 1)) + Runnable(w, LastCalls(w, m)[..k])
    && (t.frozen.Some? ==>
          && Allowed(w, t.frozen.value.name)
          && MustConfirm(w.registry[t.frozen.value.name], TaintedBy(t.executed)))
  }

  lemma RanOut(w: World, seed: seq<Msg>, t: Turn)
    requires Under(w, seed, t, 5)
    ensures Told(w, seed, Conclude(t, Running), |LastCalls(w, 5)|)
  {
    hide Executions, Runnable, RanCalls, Reported, Progress, Pass, TaintedBy, MustConfirm;
    var u := Conclude(t, Running);
    assert forall i :: 0 <= i <= 5 ==> At(u, i) == At(t, i);
    assert w.replies(4).calls != [] by {
      assert Pass(w, At(t, 4), At(t, 5), 4);
      AsksForTools(w, At(t, 4), At(t, 5), 4);
    }
    RunnableConcat(w, Offered(w, 4), LastCalls(w, 5));
    assert LastCalls(w, 5)[..|LastCalls(w, 5)|] == LastCalls(w, 5);
  }

  lemma AsksForTools(w: World, before: seq<Msg>, after: seq<Msg>, i: nat)
    requires Pass(w, before, after, i)
    ensures w.replies(i).Message? && w.replies(i).calls != []
  {
  }

  lemma SamePasses(w: World, seed: seq<Msg>, t: Turn, u: Turn, n: nat)
    requires Passes(w, seed, t, n) && |t.prompts| == n + 1 && u.prompts == t.prompts
    ensures Passes(w, seed, u, n)
  {
    hide Pass;
    assert forall i :: 0 <= i <= n ==> At(u, i) == At(t, i);
  }

  lemma OverWithoutCalls(w: World, seed: seq<Msg>, t: Turn, exit: Exit, n: nat)
    requires Over(w, seed, t, exit, n) && n < 5 && !exit.Paused?
    ensures Told(w, seed, Conclude(t, exit), 0)
  {
    hide Executions, RanCalls, Reported, Progress, Passes, Strip, TaintedBy, MustConfirm, Runnable, Offered;
    SamePasses(w, seed, t, Conclude(t, exit), n);
    NoneRunnable(w);
  }

  lemma OverPaused(w: World, seed: seq<Msg>, t: Turn, n: nat) returns (k: nat)
    requires Over(w, seed, t, Paused, n) && n < 5
    ensures Told(w, seed, Conclude(t, Paused), k)
  {
    hide Executions, RanCalls, Reported, Progress, Passes, TaintedBy, MustConfirm, Runnable, Offered;
    k :| 0 <= k < |w.replies(n).calls| && t.frozen == Some(w.replies(n).calls[k])
         && RanCalls(t.executed) == Runnable(w, Offered(w, n)) + Runnable(w, w.replies(n).calls[..k]);
  }

  lemma WasOver(w: World, seed: seq<Msg>, t: Turn, exit: Exit, n: nat) returns (k: nat)
    requires Over(w, seed, t, exit, n) && n < 5
    ensures Told(w, seed, Conclude(t, exit), k)
  {
    hide *;
    k := 0;
    if exit.Paused? {
      k := OverPaused(w, seed, t, n);
    } else {
      OverWithoutCalls(w, seed, t, exit, n);
    }
  }

  /** Every turn: what each model call saw, which calls were run with which
      outcome, what was frozen and why, and what the user is shown. */
  lemma {:induction false} TurnExactly(w: World, seed: seq<Msg>) returns (k: nat)
    requires Clean(seed)
    ensures Told(w, seed, WholeTurn(w, seed), k)
  {
    hide Loop, Under, Over, Told, Conclude;
    LoopExactly(w, seed, 5);
    var (t, exit) := Loop(w, Opening(seed), 5);
    if exit == Running {
      RanOut(w, seed, t);
      k := |LastCalls(w, 5)|;
    } else {
      k := WasOver(w, seed, t, exit, |t.prompts| - 1);
    }
  }
}
