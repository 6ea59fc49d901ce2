/** What a finished coordinator run says about the actions of its plan. */
module Outcomes {
  import opened Types
  import opened Policy
  import opened Coordinator
  import Windows
  import Text

  /** The plan's actions: what the loop does not skip. */
  function Acts(items: seq<Item>): (acts: seq<Item>)
    ensures forall i | 0 <= i < |acts| :: acts[i].Act?
  {
    if items == [] then []
    else
      var before, last := Acts(items[..|items| - 1]), items[|items| - 1];
      if last.Act? then before + [last] else before
  }

  function Dones(acts: seq<Item>): (ds: seq<Done>)
    requires forall i | 0 <= i < |acts| :: acts[i].Act?
  {
    seq(|acts|, i requires 0 <= i < |acts| => Done(Some(acts[i].id), acts[i].tool, acts[i].args, true))
  }

  function AtMost(limit: int): (n: nat) {
    if limit > 0 then limit else 0
  }

  predicate IsAllowed(c: Setting, act: Item) {
    act.Act? && VerdictOf(c, act.tool) == Allow
  }

  /** While no call failed, the evidence is the list of the first actions, all allowed. */
  predicate Clean(c: Setting, l: Loop, acts: seq<Item>)
    requires forall i | 0 <= i < |acts| :: acts[i].Act?
  {
    && l.toolCalls <= |acts| && l.executed == Dones(acts[..l.toolCalls])
    && forall i | 0 <= i < l.toolCalls :: IsAllowed(c, acts[i])
  }

  /** How a loop that was left early was left. */
  predicate Left(c: Setting, l: Loop, acts: seq<Item>) {
    && l.events != []
    && var last, i := l.events[|l.events| - 1], l.iteration - 1;
       || (l.status == Paused && last == PauseSeen)
       || (l.status == Cancelled && last == StopSeen)
       || (l.status == Failed && last.CircuitOpened? && l.hadError)
       || (l.status == Failed && 0 <= i < |acts| && acts[i].Act? && last == Denied(acts[i].tool) &&
           VerdictOf(c, acts[i].tool) == Deny)
       || (l.status == WaitingApproval && 0 <= i < |acts| && acts[i].Act? && last == Awaiting(acts[i]) &&
           VerdictOf(c, acts[i].tool) == RequireApproval)
       || (l.status in {Planning, Executing} && (last.LimitHit? || last == PauseSeen || l.kill))
  }

  predicate Errors(executed: seq<Done>) {
    exists i :: 0 <= i < |executed| && !executed[i].ok
  }

  predicate Parks(l: Loop) {
    exists i :: 0 <= i < |l.events| && l.events[i].Awaiting?
  }

  predicate LoopInv(c: Setting, l: Loop, acts: seq<Item>)
    requires forall i | 0 <= i < |acts| :: acts[i].Act?
  {
    && l.events != []
    && l.iteration <= |acts| && (!l.stopped ==> l.iteration == |acts|)
    && l.iteration <= AtMost(c.budget.maxIterations)
    && l.toolCalls <= AtMost(c.budget.maxToolCalls) && l.toolCalls <= l.iteration
    && (forall i | 0 <= i < |l.executed| :: VerdictOf(c, l.executed[i].tool) == Allow)
    && (l.hadError <==> Errors(l.executed))
    && (Parks(l) <==> l.status == WaitingApproval)
    && (!l.hadError ==>
          && Clean(c, l, acts)
          && l.iteration == if l.status in {WaitingApproval, Failed} then l.toolCalls + 1 else l.toolCalls)
    && (if l.stopped then Left(c, l, acts) else l.status in {Planning, Executing})
  }

  // ---------------------------------------------------------------------------------------------
  // The loop keeps the invariant
  // ---------------------------------------------------------------------------------------------

  lemma ParksNot(l: Loop, events: seq<Event>)
    requires
      || l.events == events
      || (|l.events| == |events| + 1 && l.events[..|events|] == events && !l.events[|events|].Awaiting?)
    ensures Parks(l) <==> exists i :: 0 <= i < |events| && events[i].Awaiting?
  {
    if i :| 0 <= i < |events| && events[i].Awaiting? { assert l.events[i] == l.events[..|events|][i]; }
    if i :| 0 <= i < |l.events| && l.events[i].Awaiting? { assert l.events[i] == l.events[..|events|][i]; }
  }

  lemma CheckedKeeps(c: Setting, l: Loop, acts: seq<Item>, t: Turn)
    requires forall i | 0 <= i < |acts| :: acts[i].Act?
    requires LoopInv(c, l, acts) && !l.stopped
    ensures
      var l' := Checked(c, l, t);
      if l'.stopped then LoopInv(c, l', acts)
      else LoopInv(c, l', acts) && l'.iteration < c.budget.maxIterations && l'.toolCalls < c.budget.maxToolCalls
  {
    hide VerdictOf, Errors;
    ParksNot(Checked(c, l, t), l.events);
  }

  lemma CleanGrows(c: Setting, l: Loop, acts: seq<Item>, act: Item)
    requires forall i | 0 <= i < |acts| :: acts[i].Act?
    requires act.Act? && Clean(c, l, acts)
    ensures Clean(c, l, acts + [act])
  {
    assert (acts + [act])[..l.toolCalls] == acts[..l.toolCalls];
  }

  lemma CalledCleanly(c: Setting, l: Loop, acts: seq<Item>, act: Item)
    requires forall i | 0 <= i < |acts| :: acts[i].Act?
    requires IsAllowed(c, act) && Clean(c, l, acts) && l.toolCalls == |acts|
    ensures Clean(c, Called(l, act), acts + [act])
  {
    hide VerdictOf;
    assert acts[..|acts|] == acts && (acts + [act])[..|acts| + 1] == acts + [act];
    assert Dones(acts + [act]) == Dones(acts) + [Done(Some(act.id), act.tool, act.args, true)];
  }

  lemma ErrorsGrow(executed: seq<Done>, d: Done)
    ensures Errors(executed + [d]) <==> Errors(executed) || !d.ok
  {
    if Errors(executed) {
      var i :| 0 <= i < |executed| && !executed[i].ok;
      assert (executed + [d])[i] == executed[i];
    }
    if !d.ok { assert (executed + [d])[|executed|] == d; }
  }

  lemma SucceededKeeps(c: Setting, l: Loop, acts: seq<Item>, act: Item, t: Turn)
    requires forall i | 0 <= i < |acts| :: acts[i].Act?
    requires LoopInv(c, l, acts) && !l.stopped && IsAllowed(c, act) && t.outcome.Succeeds?
    requires l.iteration < c.budget.maxIterations && l.toolCalls < c.budget.maxToolCalls
    ensures LoopInv(c, Ruled(c, l, act, t), acts + [act])
  {
    hide VerdictOf, Errors, Clean, Dones;
    var l1, l' := Asked(c, l, act), Ruled(c, l, act, t);
    ParksNot(l1, l.events);
    ParksNot(l', l1.events);
    ErrorsGrow(l.executed, Done(Some(act.id), act.tool, act.args, true));
    if !l.hadError {
      CleanSame(c, l, l1, acts);
      CalledCleanly(c, l1, acts, act);
      CleanSame(c, Called(l1, act), l', acts + [act]);
    }
  }

  lemma CleanSame(c: Setting, l: Loop, l': Loop, acts: seq<Item>)
    requires forall i | 0 <= i < |acts| :: acts[i].Act?
    requires Clean(c, l, acts) && l'.toolCalls == l.toolCalls && l'.executed == l.executed
    ensures Clean(c, l', acts)
  {
  }

  /** A failed call, whether or not the tool itself succeeded. */
  lemma FailedKeeps(c: Setting, l: Loop, acts: seq<Item>, act: Item, t: Turn)
    requires forall i | 0 <= i < |acts| :: acts[i].Act?
    requires LoopInv(c, l, acts) && !l.stopped && IsAllowed(c, act) && !t.outcome.Succeeds?
    requires l.iteration < c.budget.maxIterations && l.toolCalls < c.budget.maxToolCalls
    ensures LoopInv(c, Ruled(c, l, act, t), acts + [act])
  {
    hide VerdictOf, Errors, Clean, Windows.Opens;
    var l1, l' := Asked(c, l, act), Ruled(c, l, act, t);
    var l2 := if t.outcome.SinkFails? then Called(l1, act) else l1;
    ParksNot(l1, l.events);
    ParksNot(l2, l1.events);
    ErredParks(l2, act, t.at);
    ErrorsGrow(l.executed, Done(Some(act.id), act.tool, act.args, true));
    ErrorsGrow(l2.executed, Done(None, act.tool, act.args, false));
  }

  lemma ErredParks(l: Loop, act: Item, at: int)
    requires act.Act?
    ensures Parks(Erred(l, act, at)) == Parks(l)
  {
    hide Windows.Opens;
    var m := l.(events := l.events + [ToolErred(act.tool)]);
    ParksNot(m, l.events);
    ParksNot(Erred(l, act, at), m.events);
  }

  lemma HeldKeeps(c: Setting, l: Loop, acts: seq<Item>, act: Item, t: Turn)
    requires forall i | 0 <= i < |acts| :: acts[i].Act?
    requires LoopInv(c, l, acts) && !l.stopped && act.Act? && VerdictOf(c, act.tool) != Allow
    requires l.iteration < c.budget.maxIterations
    ensures LoopInv(c, Ruled(c, l, act, t), acts + [act])
  {
    hide VerdictOf, Errors, Clean;
    var l1, l' := Asked(c, l, act), Ruled(c, l, act, t);
    assert (acts + [act])[l'.iteration - 1] == act;
    ParksNot(l1, l.events);
    if VerdictOf(c, act.tool) == Deny {
      ParksNot(l', l1.events);
    } else {
      assert l'.events[|l1.events|].Awaiting?;
    }
    if !l.hadError {
      CleanGrows(c, l, acts, act);
      CleanSame(c, l, l', acts + [act]);
    }
  }

  lemma TurnedKeeps(c: Setting, l: Loop, acts: seq<Item>, item: Item, t: Turn)
    requires forall i | 0 <= i < |acts| :: acts[i].Act?
    requires LoopInv(c, l, acts) && !l.stopped
    ensures LoopInv(c, Turned(c, l, item, t), if item.Act? then acts + [item] else acts)
  {
    hide LoopInv, Checked, Ruled, VerdictOf;
    if item.Act? {
      CheckedKeeps(c, l, acts, t);
      var l0 := Checked(c, l, t);
      if l0.stopped {
        StoppedKeeps(c, l0, acts, item);
      } else if VerdictOf(c, item.tool) != Allow {
        HeldKeeps(c, l0, acts, item, t);
      } else if t.outcome.Succeeds? {
        SucceededKeeps(c, l0, acts, item, t);
      } else {
        FailedKeeps(c, l0, acts, item, t);
      }
    }
  }

  /** A stopped loop does not look at further items. */
  lemma StoppedKeeps(c: Setting, l: Loop, acts: seq<Item>, act: Item)
    requires forall i | 0 <= i < |acts| :: acts[i].Act?
    requires LoopInv(c, l, acts) && l.stopped && act.Act?
    ensures LoopInv(c, l, acts + [act])
  {
    hide VerdictOf, Errors, Clean, Parks;
    if !l.hadError { CleanGrows(c, l, acts, act); }
    assert forall i | 0 <= i < |acts| :: (acts + [act])[i] == acts[i];
  }

  lemma {:induction false} LoopInvAfter(c: Setting, items: seq<Item>)
    ensures LoopInv(c, After(c, items), Acts(items))
  {
    hide LoopInv, Turned;
    if items == [] {
      StartInv(c);
    } else {
      var n := |items| - 1;
      LoopInvAfter(c, items[..n]);
      var l := After(c, items[..n]);
      if !l.stopped {
        TurnedKeeps(c, l, Acts(items[..n]), items[n], c.turns(n));
      } else if items[n].Act? {
        StoppedKeeps(c, l, Acts(items[..n]), items[n]);
      }
    }
  }

  lemma StartInv(c: Setting)
    ensures LoopInv(c, Start(c.killed), [])
  {
    var none: seq<Item> := [];
    assert none[..0] == none;
  }

  // ---------------------------------------------------------------------------------------------
  // Results of a run under the default verifier
  // ---------------------------------------------------------------------------------------------

  function DefaultRun(c: Setting, plan: Plan, end: Ending): (r: Result) {
    RunResult(c, plan, Evidence, end)
  }

  lemma EvidenceIsNoError(executed: seq<Done>)
    ensures Evidence(executed) <==> executed != [] && !Errors(executed)
  {
    if executed != [] && !Errors(executed) { assert executed[0].ok; }
  }

  /** Every run ends in a final status and within its budgets, whatever the verifier says. */
  lemma EndsFinalWithinBudget(c: Setting, plan: Plan, verifier: seq<Done> -> bool, end: Ending)
    ensures
      var l := After(c, ItemsOf(plan));
      && RunResult(c, plan, verifier, end).status in {Completed, Failed, Cancelled, Paused, WaitingApproval}
      && l.iteration <= AtMost(c.budget.maxIterations)
      && l.toolCalls <= AtMost(c.budget.maxToolCalls)
  {
    hide ItemsOf, After, VerdictOf, Clean, Errors, Parks;
    LoopInvAfter(c, ItemsOf(plan));
  }

  /** Nothing was called, with or without success, that the policy did not allow. */
  lemma OnlyAllowedCalls(c: Setting, plan: Plan, verifier: seq<Done> -> bool, end: Ending)
    ensures
      var executed := RunResult(c, plan, verifier, end).executed;
      forall i | 0 <= i < |executed| :: VerdictOf(c, executed[i].tool) == Allow
  {
    hide ItemsOf, After, VerdictOf;
    LoopInvAfter(c, ItemsOf(plan));
  }

  /**
  A run completes only when it executed a non-empty prefix of the plan's actions, in order, each once, each allowed,
  each with success; and the prefix is a proper one only when a limit was hit, or a pause was asked for and withdrawn.
  */
  lemma CompletedMeans(c: Setting, plan: Plan, end: Ending)
    requires DefaultRun(c, plan, end).status == Completed
    ensures
      var r, acts := DefaultRun(c, plan, end), Acts(ItemsOf(plan));
      var n := |r.executed|;
      && 0 < n <= |acts|
      && r.executed == Dones(acts[..n])
      && (forall i | 0 <= i < n :: IsAllowed(c, acts[i]))
      && (n < |acts| ==> exists i :: 0 <= i < |r.events| && (r.events[i].LimitHit? || r.events[i] == PauseSeen))
      && After(c, ItemsOf(plan)).iteration == After(c, ItemsOf(plan)).toolCalls == n
  {
    hide ItemsOf, After, VerdictOf, Errors, Parks, Evidence;
    var l, acts := After(c, ItemsOf(plan)), Acts(ItemsOf(plan));
    LoopInvAfter(c, ItemsOf(plan));
    EvidenceIsNoError(l.executed);
    var r := DefaultRun(c, plan, end);
    assert l.status in {Planning, Executing} by { hide LoopInv; EndStatus(c, l, acts, end); }
    assert |Dones(acts[..l.toolCalls])| == l.toolCalls;
    if l.toolCalls < |acts| {
      assert l.stopped;
      var k := |l.events| - 1;
      assert r.events[k] == l.events[k];
    }
  }

  lemma EndStatus(c: Setting, l: Loop, acts: seq<Item>, end: Ending)
    requires forall i | 0 <= i < |acts| :: acts[i].Act?
    requires LoopInv(c, l, acts) && Conclude(l, Evidence, end).status == Completed
    ensures l.status in {Planning, Executing} && !l.hadError && !l.kill && Evidence(l.executed)
  {
    hide VerdictOf, Errors, Parks, Evidence, Clean;
  }

  /**
  A run waits for an approval exactly when the loop met a gated action and nobody stopped or paused the run meanwhile;
  the gated action is then the last one looked at, and it was not called.
  */
  lemma WaitingMeans(c: Setting, plan: Plan, verifier: seq<Done> -> bool, end: Ending)
    ensures
      var l, acts, r := After(c, ItemsOf(plan)), Acts(ItemsOf(plan)), RunResult(c, plan, verifier, end);
      && (r.status == WaitingApproval <==> Parks(l) && !end.pauseFlag && !end.stopAsked && !l.kill)
      && (Parks(l) ==>
            && 0 < l.iteration <= |acts|
            && VerdictOf(c, acts[l.iteration - 1].tool) == RequireApproval
            && l.events[|l.events| - 1] == Awaiting(acts[l.iteration - 1]))
  {
    hide ItemsOf, After, VerdictOf, Errors, Clean, Parks;
    LoopInvAfter(c, ItemsOf(plan));
  }

  // ---------------------------------------------------------------------------------------------
  // What each turn and the ending have to do with the final status
  // ---------------------------------------------------------------------------------------------

  /** The loop comes to item `n`, which is an action. */
  predicate Reached(c: Setting, items: seq<Item>, n: nat) {
    n < |items| && items[n].Act? && !After(c, items[..n]).stopped
  }

  /** The loop goes past the checks at item `n` and asks the policy about it. */
  predicate Taken(c: Setting, items: seq<Item>, n: nat) {
    Reached(c, items, n) && After(c, items[..n + 1]).iteration == After(c, items[..n]).iteration + 1
  }

  /**
  A turn is taken exactly when no check and no flag stands against it and every budget has room; otherwise the loop ends
  there, nothing is called, and the event names the first limit that is exceeded.
  */
  lemma TurnIsTaken(c: Setting, items: seq<Item>, n: nat)
    requires Reached(c, items, n)
    ensures
      var l, l', t, b := After(c, items[..n]), After(c, items[..n + 1]), c.turns(n), c.budget;
      && (Taken(c, items, n) <==>
            && !t.pauseCheck && !t.stopCheck && !t.stopAsked && !c.killed && !t.pauseFlag
            && t.elapsed <= b.maxWall && l.iteration < b.maxIterations && l.toolCalls < b.maxToolCalls
            && c.tokens <= b.maxTokens && c.cost <= b.maxCost)
      && (!Taken(c, items, n) ==> l'.stopped && l'.executed == l.executed)
      && (Taken(c, items, n) ==>
            var a := items[n];
            && |l'.events| > |l.events|
            && l'.events[|l.events|] == PolicyChecked(a.tool, a.args, VerdictOf(c, a.tool)))
      && (!t.pauseCheck && !t.stopCheck && (t.stopAsked || c.killed) ==> l'.events == l.events)
      && (t.pauseCheck || (!t.stopCheck && !t.stopAsked && !c.killed && t.pauseFlag) ==>
            l'.events == l.events + [PauseSeen])
      && (!t.pauseCheck && t.stopCheck ==> l'.events == l.events + [StopSeen])
      && (!Taken(c, items, n) && !t.pauseCheck && !t.stopCheck && !t.stopAsked && !c.killed && !t.pauseFlag ==>
            |l'.events| == |l.events| + 1 && l'.events[|l.events|].LimitHit?)
      && (|l'.events| > |l.events| && l'.events[|l.events|].LimitHit? ==>
           match l'.events[|l.events|].limit
           case WallTime => t.elapsed > b.maxWall
           case Iterations => t.elapsed <= b.maxWall && l.iteration >= b.maxIterations
           case ToolCalls => t.elapsed <= b.maxWall && l.iteration < b.maxIterations && l.toolCalls >= b.maxToolCalls
           case Tokens => l.toolCalls < b.maxToolCalls && c.tokens > b.maxTokens
           case Cost => c.tokens <= b.maxTokens && c.cost > b.maxCost)
  {
    hide Ruled;
    assert items[..n + 1][..n] == items[..n];
    GoingOn(c, items[..n]);
    var l := After(c, items[..n]);
    var l0 := Checked(c, l, c.turns(n));
    if !l0.stopped { AskedOnce(c, l0, items[n], c.turns(n)); }
  }

  lemma AskedOnce(c: Setting, l: Loop, act: Item, t: Turn)
    requires act.Act? && !l.stopped
    ensures
      var l' := Ruled(c, l, act, t);
      && l'.iteration == l.iteration + 1 && l'.kill == l.kill
      && |l'.events| > |l.events| && l.events <= l'.events
      && l'.events[|l.events|] == PolicyChecked(act.tool, act.args, VerdictOf(c, act.tool))
      && (VerdictOf(c, act.tool) == Deny ==> l'.status == Failed && l'.stopped && l'.hadError == l.hadError)
      && (VerdictOf(c, act.tool) == RequireApproval ==>
            l'.status == WaitingApproval && l'.stopped && l'.hadError == l.hadError)
      && (VerdictOf(c, act.tool) == Allow ==>
            (l'.stopped ==> l'.status == Failed && l'.hadError) && (!l'.stopped ==> l'.status == Executing))
  {
    hide VerdictOf, Windows.Opens;
  }

  /** The turn ends neither by an answer from outside nor by a verdict other than ALLOW. */
  predicate Passes(c: Setting, items: seq<Item>, n: nat)
    requires n < |items| && items[n].Act?
  {
    var t := c.turns(n);
    !t.pauseCheck && !t.stopCheck && !t.stopAsked && Taken(c, items, n) && VerdictOf(c, items[n].tool) == Allow
  }

  lemma {:induction false} GoingOn(c: Setting, items: seq<Item>)
    requires !After(c, items).stopped
    ensures After(c, items).status in {Planning, Executing} && After(c, items).kill == c.killed
    ensures c.killed ==> forall i | 0 <= i < |items| :: items[i].Junk?
  {
    if items != [] {
      hide Ruled;
      var n := |items| - 1;
      GoingOn(c, items[..n]);
      var l := After(c, items[..n]);
      if items[n].Act? {
        var l0 := Checked(c, l, c.turns(n));
        if !l0.stopped { AskedOnce(c, l0, items[n], c.turns(n)); }
      }
    }
  }

  /** What a reached turn makes of status and stop flag. */
  lemma TurnTells(c: Setting, items: seq<Item>, n: nat)
    requires Reached(c, items, n)
    ensures
      var l', t := After(c, items[..n + 1]), c.turns(n);
      if t.pauseCheck then l'.stopped && l'.status == Paused && l'.kill == c.killed
      else if t.stopCheck then l'.stopped && l'.status == Cancelled && l'.kill == c.killed
      else if t.stopAsked then l'.stopped && l'.status in {Planning, Executing} && l'.kill
      else
        && l'.kill == c.killed
        && (if !Taken(c, items, n) then l'.stopped && l'.status in {Planning, Executing}
            else
              match VerdictOf(c, items[n].tool)
              case Deny => l'.stopped && l'.status == Failed
              case RequireApproval => l'.stopped && l'.status == WaitingApproval
              case Allow => if l'.stopped then l'.status == Failed && l'.hadError else l'.status == Executing)
  {
    hide Ruled, VerdictOf;
    assert items[..n + 1][..n] == items[..n];
    GoingOn(c, items[..n]);
    var l0 := Checked(c, After(c, items[..n]), c.turns(n));
    if !l0.stopped { AskedOnce(c, l0, items[n], c.turns(n)); }
  }

  /** The turn that ended the loop, or the end of the plan; every other turn that was reached let the loop go on. */
  lemma {:induction false} LastTurn(c: Setting, items: seq<Item>) returns (last: nat)
    ensures
      if After(c, items).stopped then Reached(c, items, last) && After(c, items) == After(c, items[..last + 1])
      else last == |items|
    ensures forall n: nat | Reached(c, items, n) && n != last :: n < last && Passes(c, items, n)
  {
    hide After, VerdictOf, Reached, Taken, Passes;
    if items == [] {
      last := 0;
      NothingReached(c);
    } else {
      var k := |items| - 1;
      var before := items[..k];
      last := LastTurn(c, before);
      LastIsReached(c, items);
      if After(c, before).stopped {
        NotBeyond(c, before, last);
        SameTurn(c, items, last);
      } else {
        last := if After(c, items).stopped then k else |items|;
      }
      forall n: nat | Reached(c, items, n) && n != last
        ensures n < last && n < |items| && items[n].Act? && Passes(c, items, n)
      {
        NotBeyond(c, items, n);
        if n < k { SameTurn(c, items, n); }
      }
    }
  }

  lemma NothingReached(c: Setting)
    ensures !After(c, []).stopped && forall n: nat :: !Reached(c, [], n)
  {
  }

  lemma LastIsReached(c: Setting, items: seq<Item>)
    requires items != []
    ensures
      var k := |items| - 1;
      var l := After(c, items[..k]);
      && items[..k + 1] == items
      && (Reached(c, items, k) <==> !l.stopped && items[k].Act?)
      && (!Reached(c, items, k) ==> After(c, items) == l)
      && (Reached(c, items, k) && !After(c, items).stopped ==> Passes(c, items, k))
  {
    var k := |items| - 1;
    assert items[..k + 1] == items;
    hide Turned;
    if Reached(c, items, k) {
      hide After, VerdictOf;
      TurnTells(c, items, k);
    }
  }

  /** A turn before the last one is the same without the last one. */
  lemma SameTurn(c: Setting, items: seq<Item>, n: nat)
    requires n < |items| - 1
    ensures
      var before := items[..|items| - 1];
      && before[..n + 1] == items[..n + 1] && before[n] == items[n]
      && Reached(c, items, n) == Reached(c, before, n)
      && (items[n].Act? ==> Passes(c, items, n) == Passes(c, before, n))
  {
    hide After, VerdictOf;
    var before := items[..|items| - 1];
    assert before[..n] == items[..n] && before[..n + 1] == items[..n + 1];
  }

  /**
  A run ends PAUSED exactly when the pause flag is up at the end, or the pause check answered yes at a turn the loop
  reached and no stop was asked for before the run or at its end.
  */
  lemma PausedMeans(c: Setting, plan: Plan, verifier: seq<Done> -> bool, end: Ending)
    ensures
      RunResult(c, plan, verifier, end).status == Paused <==>
        || end.pauseFlag
        || (!end.stopAsked && !c.killed && exists n: nat :: Reached(c, ItemsOf(plan), n) && c.turns(n).pauseCheck)
  {
    hide ItemsOf, After, VerdictOf;
    StatusTells(c, ItemsOf(plan));
  }

  /**
  A run ends CANCELLED exactly when the pause flag is down at the end and a stop was asked for: before the run, at its
  end, or at a turn the loop reached whose pause check did not come first, by the check or by the flag.
  */
  lemma CancelledMeans(c: Setting, plan: Plan, verifier: seq<Done> -> bool, end: Ending)
    ensures
      RunResult(c, plan, verifier, end).status == Cancelled <==>
        && !end.pauseFlag
        && (end.stopAsked || c.killed ||
            exists n: nat :: Reached(c, ItemsOf(plan), n) && StopAt(c.turns(n)))
  {
    hide ItemsOf, After, VerdictOf;
    StatusTells(c, ItemsOf(plan));
  }

  /** A stop at a turn, by the check or by the flag, that the pause check does not forestall. */
  predicate StopAt(t: Turn) {
    !t.pauseCheck && (t.stopCheck || t.stopAsked)
  }

  /**
  With the default verifier a run ends COMPLETED exactly when nobody paused or stopped it, every action that the policy
  was asked about is allowed, something was called and no call failed.
  */
  lemma CompletedExactly(c: Setting, plan: Plan, end: Ending)
    ensures
      var r, items := DefaultRun(c, plan, end), ItemsOf(plan);
      r.status == Completed <==>
        && !end.pauseFlag && !end.stopAsked && !c.killed
        && (forall n: nat | Reached(c, items, n) :: !c.turns(n).pauseCheck && !StopAt(c.turns(n)))
        && (forall n: nat | Taken(c, items, n) :: VerdictOf(c, items[n].tool) == Allow)
        && r.executed != [] && forall i | 0 <= i < |r.executed| :: r.executed[i].ok
  {
    hide ItemsOf, After, VerdictOf, Evidence;
    var l, items := After(c, ItemsOf(plan)), ItemsOf(plan);
    LoopInvAfter(c, items);
    EvidenceIsNoError(l.executed);
    StatusTells(c, items);
    VerdictsTell(c, items);
  }

  /** How status and stop flag of the loop follow from the turns that were reached. */
  lemma StatusTells(c: Setting, items: seq<Item>)
    ensures
      var l := After(c, items);
      && (l.status == Paused <==> exists n: nat :: Reached(c, items, n) && c.turns(n).pauseCheck)
      && (l.kill || l.status == Cancelled <==>
            c.killed || exists n: nat :: Reached(c, items, n) && StopAt(c.turns(n)))
      && (l.status == Paused ==> l.kill == c.killed)
  {
    hide After, VerdictOf, Reached, Taken;
    var last := LastTurn(c, items);
    if After(c, items).stopped {
      TurnTells(c, items, last);
    } else {
      GoingOn(c, items);
      assert !Reached(c, items, last) by { NotBeyond(c, items, last); }
    }
    assert forall n: nat | Reached(c, items, n) && n != last :: !c.turns(n).pauseCheck && !StopAt(c.turns(n)) by {
      forall n: nat | Reached(c, items, n) && n != last ensures !c.turns(n).pauseCheck && !StopAt(c.turns(n)) {
        NotBeyond(c, items, n);
      }
    }
  }

  lemma NotBeyond(c: Setting, items: seq<Item>, n: nat)
    ensures Reached(c, items, n) ==> n < |items| && items[n].Act?
    ensures Taken(c, items, n) ==> Reached(c, items, n)
  {
  }

  /** The same for the verdicts. */
  lemma VerdictsTell(c: Setting, items: seq<Item>)
    ensures
      var l := After(c, items);
      && l.status in {Planning, Executing, Paused, Cancelled, WaitingApproval, Failed}
      && (l.status in {Planning, Executing} ==>
            forall n: nat | Taken(c, items, n) :: VerdictOf(c, items[n].tool) == Allow)
      && (l.status in {WaitingApproval, Failed} && !l.hadError ==>
            exists n: nat :: Taken(c, items, n) && VerdictOf(c, items[n].tool) != Allow)
  {
    hide After, VerdictOf, Reached, Taken;
    var last := LastTurn(c, items);
    if After(c, items).stopped {
      TurnTells(c, items, last);
      TurnIsTaken(c, items, last);
    } else {
      GoingOn(c, items);
    }
    forall n: nat
      ensures Taken(c, items, n) && n != last ==>
                n < |items| && items[n].Act? && VerdictOf(c, items[n].tool) == Allow
    {
      NotBeyond(c, items, n);
    }
    NotBeyond(c, items, last);
  }

  /**
  The end of the event list: the final status, and before it what the verification said, which takes place exactly when
  nobody paused or stopped the run and the loop did not leave a verdict of its own.
  */
  lemma EndingEvents(c: Setting, plan: Plan, verifier: seq<Done> -> bool, end: Ending)
    ensures
      var l, r := After(c, ItemsOf(plan)), RunResult(c, plan, verifier, end);
      var checked := !end.pauseFlag && !end.stopAsked && !l.kill && l.status in {Planning, Executing};
      r.events == l.events + (if checked then [Verified(r.status == Completed)] else []) + [Ended(r.status)]
  {
    hide ItemsOf, After;
    LoopInvAfter(c, ItemsOf(plan));
  }

  /** Every run begins with the same three events, and none is ever taken back. */
  lemma {:induction false} EventsBegin(c: Setting, items: seq<Item>)
    ensures [Started, PlanMade, ContextBuilt] <= After(c, items).events
  {
    if items != [] {
      hide Ruled;
      var n := |items| - 1;
      EventsBegin(c, items[..n]);
      var l := After(c, items[..n]);
      if !l.stopped && items[n].Act? {
        var l0 := Checked(c, l, c.turns(n));
        assert l.events <= l0.events;
        if !l0.stopped { AskedOnce(c, l0, items[n], c.turns(n)); }
      }
    }
  }

  /** A plan of the old format stands for one action without arguments for each tool, numbered from one. */
  lemma OldPlans(plan: Plan, i: nat)
    requires plan.actions == [] && i < |plan.tools|
    ensures |ItemsOf(plan)| == |plan.tools| && ItemsOf(plan)[i].Act?
    ensures ItemsOf(plan)[i].tool == plan.tools[i] && ItemsOf(plan)[i].args == "{}"
    ensures i == 0 ==> ItemsOf(plan)[i].id == "action_1"
    ensures ItemsOf(plan)[i].id == "action_" + Text.ToDecimal(1 + i)
  {
    if i == 0 { assert Text.ToDecimal(1) == "1"; }
  }

  // ---------------------------------------------------------------------------------------------
  // When the circuit breaker ends a run
  // ---------------------------------------------------------------------------------------------

  /** A call of the tool that the loop made at item `k`. */
  predicate CalledAt(c: Setting, items: seq<Item>, tool: string, k: nat) {
    Taken(c, items, k) && items[k].tool == tool && VerdictOf(c, tool) == Allow
  }

  /** A call that failed, no more than 30 seconds ago, and that no later call of the tool made good. */
  predicate StillCounts(c: Setting, items: seq<Item>, tool: string, now: int, k: nat) {
    && CalledAt(c, items, tool, k) && c.turns(k).outcome != Succeeds && now - c.turns(k).at < 30_000
    && forall m | k < m < |items| && CalledAt(c, items, tool, m) :: c.turns(m).outcome != Succeeds
  }

  function Counted(c: Setting, items: seq<Item>, tool: string, now: int): (ks: set<nat>) {
    set k: nat | k < |items| && StillCounts(c, items, tool, now, k)
  }

  lemma CalledBefore(c: Setting, items: seq<Item>, tool: string, k: nat)
    requires k < |items| - 1
    ensures CalledAt(c, items, tool, k) == CalledAt(c, items[..|items| - 1], tool, k)
  {
    hide After, VerdictOf;
    var before := items[..|items| - 1];
    assert before[..k] == items[..k] && before[..k + 1] == items[..k + 1] && before[k] == items[k];
  }

  /** What one more item does to the failures that count. */
  lemma CountedMore(c: Setting, items: seq<Item>, tool: string, now: int)
    requires items != []
    ensures
      var n := |items| - 1;
      Counted(c, items, tool, now) ==
        if CalledAt(c, items, tool, n) && c.turns(n).outcome == Succeeds then {}
        else
          Counted(c, items[..n], tool, now) +
          if CalledAt(c, items, tool, n) && now - c.turns(n).at < 30_000 then {n} else {}
  {
    hide CalledAt;
    var n := |items| - 1;
    forall k: nat | k < n ensures CalledAt(c, items, tool, k) == CalledAt(c, items[..n], tool, k) {
      CalledBefore(c, items, tool, k);
    }
    if CalledAt(c, items, tool, n) && c.turns(n).outcome == Succeeds {
      forall k: nat | k < |items| ensures !StillCounts(c, items, tool, now, k) { if k < n { assert k < n < |items|; } }
    } else {
      forall k: nat | k < n
        ensures StillCounts(c, items, tool, now, k) == StillCounts(c, items[..n], tool, now, k)
      {
      }
    }
  }

  /** The breaker's calls are the calls of the loop: a failure each, or a reset. */
  lemma BreakerMore(c: Setting, items: seq<Item>)
    requires items != []
    ensures
      var n := |items| - 1;
      var l, l' := After(c, items[..n]), After(c, items);
      l'.breaker ==
        if Taken(c, items, n) && VerdictOf(c, items[n].tool) == Allow then
          l.breaker + [if c.turns(n).outcome == Succeeds then Windows.Reset(items[n].tool)
                       else Windows.Fail(items[n].tool, c.turns(n).at)]
        else l.breaker
  {
    hide VerdictOf, Checked, Ruled;
    var n := |items| - 1;
    var l := After(c, items[..n]);
    assert items[..n + 1] == items;
    if !l.stopped && items[n].Act? {
      var l0 := Checked(c, l, c.turns(n));
      if !l0.stopped {
        AskedOnce(c, l0, items[n], c.turns(n));
        RuledBreaker(c, l0, items[n], c.turns(n));
      }
    }
  }

  lemma RuledBreaker(c: Setting, l: Loop, act: Item, t: Turn)
    requires act.Act?
    ensures Ruled(c, l, act, t).breaker ==
            if VerdictOf(c, act.tool) == Allow then
              l.breaker + [if t.outcome == Succeeds then Windows.Reset(act.tool) else Windows.Fail(act.tool, t.at)]
            else l.breaker
  {
    hide VerdictOf, Windows.Opens;
  }

  /** The failures the breaker keeps within its window are as many as those of the loop that still count. */
  lemma {:induction false} BreakerCounts(c: Setting, items: seq<Item>, tool: string, now: int)
    ensures |Windows.Keep(Windows.FailuresSince(After(c, items).breaker, tool), now, 30_000)| ==
            |Counted(c, items, tool, now)|
  {
    if items == [] {
      NothingCounted(c, tool, now);
    } else {
      var n := |items| - 1;
      BreakerCounts(c, items[..n], tool, now);
      BreakerMore(c, items);
      CountedMore(c, items, tool, now);
      FailuresMore(After(c, items[..n]).breaker, items[n], c.turns(n), tool, now);
      hide After, VerdictOf, Windows.Keep, Windows.FailuresSince, Taken;
      assert n !in Counted(c, items[..n], tool, now);
      NotBeyond(c, items, n);
    }
  }

  lemma NothingCounted(c: Setting, tool: string, now: int)
    ensures Windows.FailuresSince(After(c, []).breaker, tool) == [] && Counted(c, [], tool, now) == {}
  {
  }

  lemma FailuresMore(calls: seq<Windows.BreakerCall>, item: Item, t: Turn, tool: string, now: int)
    ensures
      item.Act? ==>
        var call := if t.outcome == Succeeds then Windows.Reset(item.tool) else Windows.Fail(item.tool, t.at);
        |Windows.Keep(Windows.FailuresSince(calls + [call], tool), now, 30_000)| ==
          if item.tool != tool then |Windows.Keep(Windows.FailuresSince(calls, tool), now, 30_000)|
          else if t.outcome == Succeeds then 0
          else
            |Windows.Keep(Windows.FailuresSince(calls, tool), now, 30_000)| +
            if now - t.at < 30_000 then 1 else 0
  {
    if item.Act? {
      var call := if t.outcome == Succeeds then Windows.Reset(item.tool) else Windows.Fail(item.tool, t.at);
      assert (calls + [call])[..|calls|] == calls;
      Windows.KeepAppend(Windows.FailuresSince(calls, tool), t.at, now, 30_000);
    }
  }

  /**
  A failed call ends the run exactly when it is the fifth failure of its tool within 30 seconds with no success of the
  tool in between.
  */
  lemma BreakerTrips(c: Setting, items: seq<Item>, n: nat)
    requires Taken(c, items, n) && VerdictOf(c, items[n].tool) == Allow && c.turns(n).outcome != Succeeds
    ensures After(c, items[..n + 1]).stopped <==>
            |Counted(c, items[..n + 1], items[n].tool, c.turns(n).at)| >= 5
  {
    var now, tool := c.turns(n).at, items[n].tool;
    assert items[..n + 1][..n] == items[..n];
    BreakerCounts(c, items[..n], tool, now);
    BreakerCounts(c, items[..n + 1], tool, now);
    CountedMore(c, items[..n + 1], tool, now);
    hide VerdictOf, Windows.Keep, Windows.FailuresSince, StillCounts;
    assert CalledAt(c, items[..n + 1], tool, n) by { hide After; assert items[..n + 1][..n + 1] == items[..n + 1]; }
    assert n !in Counted(c, items[..n], tool, now);
    StopsWhenOpen(c, items, n);
  }

  lemma StopsWhenOpen(c: Setting, items: seq<Item>, n: nat)
    requires Taken(c, items, n) && VerdictOf(c, items[n].tool) == Allow && c.turns(n).outcome != Succeeds
    ensures After(c, items[..n + 1]).stopped <==>
            Windows.Opens(After(c, items[..n]).breaker, items[n].tool, c.turns(n).at)
  {
    hide VerdictOf, Windows.Opens;
    assert items[..n + 1][..n] == items[..n];
  }

  /** A turn in which nothing from outside interferes. */
  predicate Calm(c: Setting, t: Turn) {
    && !t.pauseCheck && !t.stopCheck && !t.stopAsked && !t.pauseFlag && t.elapsed <= c.budget.maxWall
    && t.outcome.Succeeds?
  }

  /** How many actions the two counters admit. */
  function Room(b: Budget): (m: nat) {
    AtMost(if b.maxIterations < b.maxToolCalls then b.maxIterations else b.maxToolCalls)
  }

  lemma {:induction false} CalmLoop(c: Setting, items: seq<Item>)
    requires forall i | 0 <= i < |items| :: Calm(c, c.turns(i))
    requires forall i | 0 <= i < |items| && items[i].Act? :: IsAllowed(c, items[i])
    requires !c.killed && c.tokens <= c.budget.maxTokens && c.cost <= c.budget.maxCost
    ensures
      var l, acts := After(c, items), Acts(items);
      var m := if |acts| < Room(c.budget) then |acts| else Room(c.budget);
      && l.status in {Planning, Executing} && !l.kill && !l.hadError
      && l.executed == Dones(acts[..m]) && l.iteration == l.toolCalls == m
      && l.stopped == (|acts| > Room(c.budget))
  {
    hide VerdictOf, Acts, Windows.Opens;
    if items == [] {
      NoActs();
    } else {
      var n := |items| - 1;
      CalmLoop(c, items[..n]);
      ActsGrow(items);
      var l, acts := After(c, items[..n]), Acts(items[..n]);
      assert Calm(c, c.turns(n));
      if items[n].Act? {
        assert IsAllowed(c, items[n]);
        if |acts| < Room(c.budget) {
          assert (acts + [items[n]])[..|acts| + 1] == acts + [items[n]] && acts[..|acts|] == acts;
          var done := Done(Some(items[n].id), items[n].tool, items[n].args, true);
          assert Dones(acts + [items[n]]) == Dones(acts) + [done];
        } else {
          assert (acts + [items[n]])[..Room(c.budget)] == acts[..Room(c.budget)];
        }
      }
    }
  }

  lemma NoActs()
    ensures Acts([]) == []
  {
  }

  lemma ActsGrow(items: seq<Item>)
    requires items != []
    ensures
      var before, last := Acts(items[..|items| - 1]), items[|items| - 1];
      Acts(items) == if last.Act? then before + [last] else before
  {
  }

  /** Left in peace and with allowed actions only, a run executes as much of its plan as its counters admit. */
  lemma CalmRunCompletes(c: Setting, plan: Plan, end: Ending)
    requires forall i | 0 <= i < |ItemsOf(plan)| :: Calm(c, c.turns(i))
    requires forall i | 0 <= i < |ItemsOf(plan)| && ItemsOf(plan)[i].Act? :: IsAllowed(c, ItemsOf(plan)[i])
    requires !c.killed && c.tokens <= c.budget.maxTokens && c.cost <= c.budget.maxCost
    requires !end.stopAsked && !end.pauseFlag
    ensures
      var r, acts := DefaultRun(c, plan, end), Acts(ItemsOf(plan));
      var m := if |acts| < Room(c.budget) then |acts| else Room(c.budget);
      r.executed == Dones(acts[..m]) && r.status == if m > 0 then Completed else Failed
  {
    hide ItemsOf, After, VerdictOf, Evidence, Acts, Errors;
    CalmLoop(c, ItemsOf(plan));
    var l := After(c, ItemsOf(plan));
    EvidenceIsNoError(l.executed);
    assert !Errors(l.executed) by { AllOk(Acts(ItemsOf(plan)), l.toolCalls); }
  }

  lemma AllOk(acts: seq<Item>, n: nat)
    requires n <= |acts| && forall i | 0 <= i < |acts| :: acts[i].Act?
    ensures !Errors(Dones(acts[..n]))
  {
  }
}
