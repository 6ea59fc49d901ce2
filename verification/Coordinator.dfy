/** The coordinator: one pass over the planned actions under budgets, policy, a circuit breaker and outside control. */
module Coordinator {
  import opened Types
  import opened Policy
  import opened Windows
  import Text

  /** One element of the plan's action list; what is not an object is skipped. */
  datatype Item = Junk | Act(id: string, tool: string, args: Json)

  /** The planner's answer with the usage it reports. */
  datatype Plan = Plan(actions: seq<Item>, tools: seq<string>, tokens: int, cost: real)

  datatype Budget = Budget(maxIterations: int, maxToolCalls: int, maxWall: int, maxTokens: int, maxCost: real)

  datatype Limit = WallTime | Iterations | ToolCalls | Tokens | Cost

  /** How a tool call ends; the event sink may fail after the call itself returned. */
  datatype CallOutcome = Succeeds | Raises | SinkFails

  /**
  What the outside answers during one turn of the loop: the pause and stop checks, a stop request that has arrived, the
  pause flag, the wall time used, the outcome of the call and the clock when it failed.
  */
  datatype Turn = Turn(
    pauseCheck: bool, stopCheck: bool, stopAsked: bool, pauseFlag: bool, elapsed: int, outcome: CallOutcome, at: int)

  /** The same two flags when the loop is over. */
  datatype Ending = Ending(stopAsked: bool, pauseFlag: bool)

  datatype Event =
    | Started
    | PlanMade
    | ContextBuilt
    | PauseSeen
    | StopSeen
    | LimitHit(limit: Limit)
    | PolicyChecked(tool: string, args: Json, verdict: Verdict)
    | Denied(tool: string)
    | Awaiting(act: Item)
    | ToolCalled(tool: string, args: Json)
    | ToolErred(tool: string)
    | CircuitOpened(tool: string)
    | Verified(passed: bool)
    | Ended(status: RunStatus)

  /** An entry of the evidence; an error entry carries no action id. */
  datatype Done = Done(id: Option<string>, tool: string, args: Json, ok: bool)

  datatype Loop = Loop(
    status: RunStatus, iteration: nat, toolCalls: nat, kill: bool, hadError: bool, executed: seq<Done>,
    events: seq<Event>, breaker: seq<BreakerCall>, stopped: bool)

  /** Everything that stays fixed during a run. */
  datatype Setting = Setting(
    budget: Budget, tokens: int, cost: real, overrides: map<string, Verdict>, turns: nat -> Turn, killed: bool)

  function VerdictOf(c: Setting, tool: string): (v: Verdict) {
    Decide(c.overrides, tool).verdict
  }

  /** Plans of the old format name tools only. */
  function ItemsOf(plan: Plan): (items: seq<Item>) {
    if plan.actions != [] then plan.actions
    else seq(|plan.tools|, i requires 0 <= i < |plan.tools| =>
               Act("action_" + Text.ToDecimal(i + 1), plan.tools[i], "{}"))
  }

  /** can_continue: the events emitted when the loop has to end here, or None to go on. */
  function Gate(b: Budget, kill: bool, pausing: bool, elapsed: int, iteration: int, calls: int, tokens: int, cost: real)
    : (stop: Option<seq<Event>>)
  {
    if kill then Some([])
    else if pausing then Some([PauseSeen])
    else if elapsed > b.maxWall then Some([LimitHit(WallTime)])
    else if iteration >= b.maxIterations then Some([LimitHit(Iterations)])
    else if calls >= b.maxToolCalls then Some([LimitHit(ToolCalls)])
    else if tokens > b.maxTokens then Some([LimitHit(Tokens)])
    else if cost > b.maxCost then Some([LimitHit(Cost)])
    else None
  }

  function Called(l: Loop, act: Item): (l': Loop)
    requires act.Act?
  {
    l.(toolCalls := l.toolCalls + 1,
       executed := l.executed + [Done(Some(act.id), act.tool, act.args, true)],
       events := l.events + [ToolCalled(act.tool, act.args)])
  }

  function Erred(l: Loop, act: Item, at: int): (l': Loop)
    requires act.Act?
  {
    var opens := Opens(l.breaker, act.tool, at);
    l.(hadError := true,
       executed := l.executed + [Done(None, act.tool, act.args, false)],
       events := l.events + [ToolErred(act.tool)] + if opens then [CircuitOpened(act.tool)] else [],
       breaker := l.breaker + [Fail(act.tool, at)],
       status := if opens then Failed else l.status,
       stopped := opens)
  }

  /** An allowed action: the call, and what its failure leads to. */
  function Allowed(l: Loop, act: Item, t: Turn): (l': Loop)
    requires act.Act?
  {
    match t.outcome
    case Succeeds => Called(l, act).(breaker := l.breaker + [Reset(act.tool)])
    case Raises => Erred(l, act, t.at)
    case SinkFails => Erred(Called(l, act), act, t.at)
  }

  /** The checks that precede an action: pause, stop and the limits. */
  function Checked(c: Setting, l: Loop, t: Turn): (l': Loop)
    ensures l'.executed == l.executed && l'.hadError == l.hadError && l'.breaker == l.breaker
    ensures l'.iteration == l.iteration && l'.toolCalls == l.toolCalls
  {
    if t.pauseCheck then l.(status := Paused, events := l.events + [PauseSeen], stopped := true)
    else if t.stopCheck then l.(status := Cancelled, events := l.events + [StopSeen], stopped := true)
    else
      var kill := l.kill || t.stopAsked;
      var stop := Gate(c.budget, kill, t.pauseFlag, t.elapsed, l.iteration, l.toolCalls, c.tokens, c.cost);
      if stop.None? then l.(kill := kill) else l.(kill := kill, events := l.events + stop.value, stopped := true)
  }

  /** The loop once the policy was asked about an action. */
  function Asked(c: Setting, l: Loop, act: Item): (l': Loop)
    requires act.Act?
  {
    l.(iteration := l.iteration + 1, status := Executing,
       events := l.events + [PolicyChecked(act.tool, act.args, VerdictOf(c, act.tool))])
  }

  /** What the policy's verdict leads to. */
  function Ruled(c: Setting, l: Loop, act: Item, t: Turn): (l': Loop)
    requires act.Act?
  {
    var l1 := Asked(c, l, act);
    match VerdictOf(c, act.tool)
    case Deny => l1.(status := Failed, events := l1.events + [Denied(act.tool)], stopped := true)
    case RequireApproval => l1.(status := WaitingApproval, events := l1.events + [Awaiting(act)], stopped := true)
    case Allow => Allowed(l1, act, t)
  }

  /** One turn of the loop on one item. */
  function Turned(c: Setting, l: Loop, item: Item, t: Turn): (l': Loop) {
    if item.Junk? then l
    else
      var l0 := Checked(c, l, t);
      if l0.stopped then l0 else Ruled(c, l0, item, t)
  }

  function Start(killed: bool): (l: Loop) {
    Loop(Planning, 0, 0, killed, false, [], [Started, PlanMade, ContextBuilt], [], false)
  }

  /** The loop after the given items. */
  function After(c: Setting, items: seq<Item>): (l: Loop) {
    if items == [] then Start(c.killed)
    else
      var n := |items| - 1;
      var l := After(c, items[..n]);
      if l.stopped then l else Turned(c, l, items[n], c.turns(n))
  }

  datatype Result = Result(status: RunStatus, executed: seq<Done>, events: seq<Event>)

  /** The part of `run` after the loop. */
  function Conclude(l: Loop, verifier: seq<Done> -> bool, end: Ending): (r: Result) {
    var (reached, events) :=
      if end.pauseFlag then (Paused, [])
      else if l.kill || end.stopAsked then (Cancelled, [])
      else if l.status !in {Queued, Executing, Planning, ContextBuilding, PolicyCheck} then (l.status, [])
      else if l.hadError then (Failed, [Verified(false)])
      else (if verifier(l.executed) then Persisting else Failed, [Verified(verifier(l.executed))]);
    var status := if reached == Persisting then Completed else reached;
    Result(status, l.executed, l.events + events + [Ended(status)])
  }

  function RunResult(c: Setting, plan: Plan, verifier: seq<Done> -> bool, end: Ending): (r: Result) {
    Conclude(After(c, ItemsOf(plan)), verifier, end)
  }

  /** The evidence check of the default verifier. */
  function Evidence(executed: seq<Done>): (ok: bool) {
    && executed != []
    && (exists i :: 0 <= i < |executed| && executed[i].ok)
    && !(exists i :: 0 <= i < |executed| && !executed[i].ok)
  }

  /** The verifier runs its checks in order; without any it falls back on the evidence. */
  method Verify(checks: seq<seq<Done> -> bool>, executed: seq<Done>) returns (passed: bool)
    ensures passed <==> if checks == [] then Evidence(executed)
                        else forall i | 0 <= i < |checks| :: checks[i](executed)
  {
    passed := true;
    for i := 0 to |checks|
      invariant passed <==> forall k | 0 <= k < i :: checks[k](executed)
    {
      var ok := checks[i](executed);
      passed := passed && ok;
    }
    if checks == [] {
      passed := Evidence(executed);
    }
  }

  class RunCoordinator {
    const budget: Budget
    const breaker: CircuitBreaker
    var status: RunStatus
    var iteration: nat
    var toolCalls: nat
    var tokensUsed: int
    var costUsed: real
    var kill: bool
    var pausing: bool
    var events: seq<Event>

    constructor (b: Budget)
      ensures budget == b && fresh(breaker) && breaker.Valid() && breaker.calls == []
      ensures status == Queued && iteration == 0 && toolCalls == 0 && tokensUsed == 0 && costUsed == 0.0
      ensures !kill && !pausing && events == []
    {
      budget, status := b, Queued;
      breaker := new CircuitBreaker();
      iteration, toolCalls, tokensUsed, costUsed := 0, 0, 0, 0.0;
      kill, pausing, events := false, false, [];
    }

    /** The loop state these fields stand for. */
    ghost predicate Shows(l: Loop)
      reads this, breaker
    {
      && breaker.Valid() && breaker.calls == l.breaker
      && status == l.status && iteration == l.iteration && toolCalls == l.toolCalls
      && kill == l.kill && events == l.events
    }

    method Emit(e: Event)
      modifies this`events
      ensures events == old(events) + [e]
    {
      events := events + [e];
    }

    method CanContinue(elapsed: int) returns (go: bool)
      modifies this`events
      ensures
        var stop := Gate(budget, kill, pausing, elapsed, iteration, toolCalls, tokensUsed, costUsed);
        go == stop.None? && events == old(events) + if go then [] else stop.value
      ensures go <==>
                && !kill && !pausing && elapsed <= budget.maxWall
                && iteration < budget.maxIterations && toolCalls < budget.maxToolCalls
                && tokensUsed <= budget.maxTokens && costUsed <= budget.maxCost
    {
      if kill {
        return false;
      }
      if pausing {
        Emit(PauseSeen);
        return false;
      }
      if elapsed > budget.maxWall {
        Emit(LimitHit(WallTime));
        return false;
      }
      if iteration >= budget.maxIterations {
        Emit(LimitHit(Iterations));
        return false;
      }
      if toolCalls >= budget.maxToolCalls {
        Emit(LimitHit(ToolCalls));
        return false;
      }
      if tokensUsed > budget.maxTokens {
        Emit(LimitHit(Tokens));
        return false;
      }
      if costUsed > budget.maxCost {
        Emit(LimitHit(Cost));
        return false;
      }
      return true;
    }

    /** The try block of one allowed action and its handler. */
    method Execute(act: Item, t: Turn, executed: seq<Done>, ghost l: Loop)
      returns (executed': seq<Done>, failed: bool, tripped: bool)
      requires act.Act? && Shows(l) && !l.stopped && executed == l.executed && Monotone(l.breaker, t.at)
      modifies this, breaker
      ensures
        var l' := Allowed(l, act, t);
        && Shows(l') && executed' == l'.executed && failed == (t.outcome != Succeeds)
        && tripped == l'.stopped && l'.hadError == (l.hadError || failed)
      ensures tokensUsed == old(tokensUsed) && costUsed == old(costUsed) && pausing == old(pausing)
    {
      executed', failed, tripped := executed, false, false;
      if t.outcome != Raises {
        toolCalls := toolCalls + 1;
        executed' := executed' + [Done(Some(act.id), act.tool, act.args, true)];
        Emit(ToolCalled(act.tool, act.args));
      }
      if t.outcome == Succeeds {
        breaker.ResetKey(act.tool);
      } else {
        failed := true;
        Emit(ToolErred(act.tool));
        executed' := executed' + [Done(None, act.tool, act.args, false)];
        tripped := breaker.RecordFailure(act.tool, t.at);
        if tripped {
          status := Failed;
          Emit(CircuitOpened(act.tool));
        }
      }
    }

    /** The checks at the head of a turn; `go` is false where the source breaks. */
    method Check(t: Turn, ghost c: Setting, ghost l: Loop) returns (go: bool)
      requires Shows(l) && !l.stopped
      requires c.budget == budget && c.tokens == tokensUsed && c.cost == costUsed
      modifies this
      ensures Shows(Checked(c, l, t)) && go == !Checked(c, l, t).stopped
      ensures t.pauseCheck ==> !go && status == Paused && events == old(events) + [PauseSeen]
      ensures !t.pauseCheck && t.stopCheck ==> !go && status == Cancelled && events == old(events) + [StopSeen]
      ensures !t.pauseCheck && !t.stopCheck ==>
                status == old(status) && kill == (old(kill) || t.stopAsked) && (kill ==> !go)
      ensures tokensUsed == c.tokens && costUsed == c.cost
    {
      hide Gate, Stored;
      if t.pauseCheck {
        status := Paused;
        Emit(PauseSeen);
        return false;
      }
      if t.stopCheck {
        status := Cancelled;
        Emit(StopSeen);
        return false;
      }
      kill, pausing := kill || t.stopAsked, t.pauseFlag;
      go := CanContinue(t.elapsed);
    }

    /** One action under the policy; `stop` is true where the source breaks. */
    method Perform(act: Item, t: Turn, executed: seq<Done>, overrides: map<string, Verdict>,
                   ghost c: Setting, ghost l: Loop)
      returns (executed': seq<Done>, failed: bool, stop: bool)
      requires act.Act? && Shows(l) && !l.stopped && executed == l.executed && Monotone(l.breaker, t.at)
      requires c.overrides == overrides
      modifies this, breaker
      ensures
        var l' := Ruled(c, l, act, t);
        && Shows(l') && executed' == l'.executed && l'.hadError == (l.hadError || failed) && stop == l'.stopped
      ensures tokensUsed == old(tokensUsed) && costUsed == old(costUsed)
    {
      hide Allowed, Opens, Monotone, Stored, Decide;
      executed', failed, stop := executed, false, true;
      iteration := iteration + 1;
      status := Executing;
      var verdict := Decide(overrides, act.tool).verdict;
      Emit(PolicyChecked(act.tool, act.args, verdict));
      if verdict == Deny {
        status := Failed;
        Emit(Denied(act.tool));
        return;
      }
      if verdict == RequireApproval {
        status := WaitingApproval;
        Emit(Awaiting(act));
        return;
      }
      executed', failed, stop := Execute(act, t, executed, Asked(c, l, act));
    }

    method Finalize(executed: seq<Done>, hadError: bool, verifier: seq<Done> -> bool, end: Ending, ghost l: Loop)
      requires Shows(l) && executed == l.executed && hadError == l.hadError
      modifies this
      ensures Result(status, executed, events) == Conclude(l, verifier, end)
      ensures iteration == l.iteration && toolCalls == l.toolCalls
    {
      kill, pausing := kill || end.stopAsked, end.pauseFlag;
      if pausing {
        status := Paused;
      } else if kill {
        status := Cancelled;
      } else if status in {Queued, Executing, Planning, ContextBuilding, PolicyCheck} {
        if hadError {
          status := Failed;
          Emit(Verified(false));
        } else {
          status := Verifying;
          var passed := verifier(executed);
          Emit(Verified(passed));
          status := if passed then Persisting else Failed;
        }
      }
      if status == Persisting {
        status := Completed;
      }
      Emit(Ended(status));
    }

    /** Planning and context building. */
    method Prepare(plan: Plan)
      requires breaker.Valid() && breaker.calls == [] && iteration == 0 && toolCalls == 0 && events == []
      modifies this
      ensures Shows(Start(old(kill))) && kill == old(kill)
      ensures tokensUsed == old(tokensUsed) + plan.tokens && costUsed == old(costUsed) + plan.cost
    {
      status := ContextBuilding;
      Emit(Started);
      status := Planning;
      Emit(PlanMade);
      tokensUsed := tokensUsed + plan.tokens;
      costUsed := costUsed + plan.cost;
      Emit(ContextBuilt);
    }

    /** One run on a new coordinator. */
    method Run(plan: Plan, overrides: map<string, Verdict>, turns: nat -> Turn, verifier: seq<Done> -> bool,
               end: Ending)
      returns (result: RunStatus, executed: seq<Done>)
      requires breaker.Valid() && breaker.calls == [] && iteration == 0 && toolCalls == 0 && events == []
      requires Ordered(turns)
      modifies this, breaker
      ensures
        var c := Setting(budget, old(tokensUsed) + plan.tokens, old(costUsed) + plan.cost, overrides, turns, old(kill));
        var l := After(c, ItemsOf(plan));
        && Result(result, executed, events) == RunResult(c, plan, verifier, end)
        && status == result && iteration == l.iteration && toolCalls == l.toolCalls
    {
      hide Checked, Ruled, Conclude, Monotone, Ordered, ItemsOf, Stored, Shows;
      Prepare(plan);
      executed := [];
      var hadError := false;
      var items := ItemsOf(plan);
      ghost var c := Setting(budget, tokensUsed, costUsed, overrides, turns, kill);
      ghost var l := Start(kill);
      ghost var none: seq<Item> := [];
      assert items[..0] == none;
      for i := 0 to |items|
        invariant l == After(c, items[..i]) && !l.stopped && Shows(l)
        invariant executed == l.executed && hadError == l.hadError
        invariant tokensUsed == c.tokens && costUsed == c.cost
      {
        assert items[..i + 1][..i] == items[..i];
        BreakerOrdered(c, items[..i], i);
        if items[i].Junk? {
          continue;
        }
        StoppedStays(c, items, i + 1);
        var go := Check(turns(i), c, l);
        l := Checked(c, l, turns(i));
        if !go {
          break;
        }
        var failed, stop;
        executed, failed, stop := Perform(items[i], turns(i), executed, overrides, c, l);
        hadError := hadError || failed;
        l := Ruled(c, l, items[i], turns(i));
        if stop {
          break;
        }
      }
      assert items[..|items|] == items;
      Finalize(executed, hadError, verifier, end, l);
      result := status;
    }
  }

  // ---------------------------------------------------------------------------------------------
  // Support for the method
  // ---------------------------------------------------------------------------------------------

  /** The monotonic clock. */
  ghost predicate Ordered(turns: nat -> Turn) {
    forall i: nat, j: nat | i <= j :: turns(i).at <= turns(j).at
  }

  lemma {:induction false} StoppedStays(c: Setting, items: seq<Item>, i: nat)
    requires i <= |items|
    ensures After(c, items[..i]).stopped ==> After(c, items) == After(c, items[..i])
    decreases |items| - i
  {
    if i == |items| {
      assert items[..i] == items;
    } else {
      assert items[..i + 1][..i] == items[..i];
      StoppedStays(c, items, i + 1);
    }
  }

  lemma {:induction false} BreakerOrdered(c: Setting, items: seq<Item>, n: nat)
    requires Ordered(c.turns) && |items| <= n
    ensures Monotone(After(c, items).breaker, c.turns(n).at)
  {
    if items != [] {
      var k := |items| - 1;
      BreakerOrdered(c, items[..k], k);
      assert c.turns(k).at <= c.turns(n).at;
      var l := After(c, items[..k]);
      if !l.stopped {
        var l' := Turned(c, l, items[k], c.turns(k));
        assert l'.breaker == l.breaker || |l'.breaker| == |l.breaker| + 1;
      }
    }
  }
}
