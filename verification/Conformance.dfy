/** The coordinator as the worker runs it stays within what the protocol lets a worker do. */
module Conformance {
  import opened Types
  import opened Policy
  import opened Protocol
  import C = Coordinator
  import O = Outcomes

  /** The protocol action behind an event of the coordinator, if any. */
  function ActionOf(e: C.Event): (acts: seq<WorkerAction>) {
    match e
    case PolicyChecked(tool, args, Allow) => [CallAllowed(tool, args)]
    case Awaiting(Act(_, tool, args)) => [Park(tool, args)]
    case Ended(st) => [Finish(st, true)]
    case _ => []
  }

  function Script(w: WorkerId, events: seq<C.Event>): (acts: seq<Action>) {
    if events == [] then []
    else
      var acts := ActionOf(events[|events| - 1]);
      var before := Script(w, events[..|events| - 1]);
      if acts == [] then before else before + [Worker(w, acts[0])]
  }

  /** The calls of a run, as the protocol records them. */
  function Calls(w: WorkerId, events: seq<C.Event>): (calls: seq<Call>) {
    if events == [] then []
    else
      var last := events[|events| - 1];
      var before := Calls(w, events[..|events| - 1]);
      if last.PolicyChecked? && last.verdict == Allow then before + [Direct(w, last.tool, last.args)] else before
  }

  /** The events of a loop under the policy without overrides: verdicts are true, and parking comes last. */
  predicate Sound(events: seq<C.Event>) {
    forall i | 0 <= i < |events| :: SoundAt(events, i, events[i])
  }

  predicate SoundAt(events: seq<C.Event>, i: nat, e: C.Event) {
    && (e.PolicyChecked? ==> e.verdict == Verdict0(e.tool))
    && (e.Awaiting? ==> i == |events| - 1 && e.act.Act? && Verdict0(e.act.tool) == RequireApproval)
    && !e.Ended?
  }

  predicate NoPark(events: seq<C.Event>) {
    forall i | 0 <= i < |events| :: !events[i].Awaiting?
  }

  lemma SoundGrows(events: seq<C.Event>, e: C.Event)
    requires Sound(events) && NoPark(events) && !e.Ended?
    requires e.PolicyChecked? ==> e.verdict == Verdict0(e.tool)
    requires e.Awaiting? ==> e.act.Act? && Verdict0(e.act.tool) == RequireApproval
    ensures Sound(events + [e]) && (NoPark(events + [e]) <==> !e.Awaiting?)
  {
    hide Verdict0;
    var es := events + [e];
    forall i | 0 <= i < |es| ensures SoundAt(es, i, es[i]) {
      if i < |events| { assert SoundAt(events, i, events[i]); }
    }
    assert es[|events|] == e;
  }

  lemma TurnedSound(c: C.Setting, l: C.Loop, item: C.Item, t: C.Turn)
    requires Sound(l.events) && NoPark(l.events) && c.overrides == map[]
    ensures Sound(C.Turned(c, l, item, t).events)
    ensures !C.Turned(c, l, item, t).stopped ==> NoPark(C.Turned(c, l, item, t).events)
  {
    hide Verdict0, Sound, NoPark;
    if item.Act? {
      CheckedSound(c, l, t);
      var l0 := C.Checked(c, l, t);
      if !l0.stopped { RuledSound(c, l0, item, t); }
    }
  }

  lemma CheckedSound(c: C.Setting, l: C.Loop, t: C.Turn)
    requires Sound(l.events) && NoPark(l.events)
    ensures Sound(C.Checked(c, l, t).events) && NoPark(C.Checked(c, l, t).events)
  {
    hide Sound, NoPark;
    var l' := C.Checked(c, l, t);
    if |l'.events| == |l.events| {
      assert l'.events == l.events;
    } else {
      assert l'.events == l.events + [l'.events[|l.events|]];
      SoundGrows(l.events, l'.events[|l.events|]);
    }
  }

  lemma RuledSound(c: C.Setting, l: C.Loop, act: C.Item, t: C.Turn)
    requires Sound(l.events) && NoPark(l.events) && c.overrides == map[] && act.Act?
    ensures Sound(C.Ruled(c, l, act, t).events)
    ensures !C.Ruled(c, l, act, t).stopped ==> NoPark(C.Ruled(c, l, act, t).events)
  {
    hide Sound, NoPark;
    var l1 := C.Asked(c, l, act);
    var l' := C.Ruled(c, l, act, t);
    SoundGrows(l.events, l1.events[|l.events|]);
    match C.VerdictOf(c, act.tool)
    case Deny => SoundGrows(l1.events, C.Event.Denied(act.tool));
    case RequireApproval => SoundGrows(l1.events, C.Awaiting(act));
    case Allow =>
      var l2 := if t.outcome.Raises? then l1 else C.Called(l1, act);
      if !t.outcome.Raises? { SoundGrows(l1.events, C.ToolCalled(act.tool, act.args)); }
      if !t.outcome.Succeeds? {
        SoundGrows(l2.events, C.ToolErred(act.tool));
        SoundGrows(l2.events + [C.ToolErred(act.tool)], C.CircuitOpened(act.tool));
        assert l'.events == l2.events + [C.ToolErred(act.tool)] ||
               l'.events == l2.events + [C.ToolErred(act.tool)] + [C.CircuitOpened(act.tool)];
      }
  }

  lemma {:induction false} LoopSound(c: C.Setting, items: seq<C.Item>)
    requires c.overrides == map[]
    ensures Sound(C.After(c, items).events)
    ensures !C.After(c, items).stopped ==> NoPark(C.After(c, items).events)
  {
    hide Sound, NoPark, C.Turned;
    if items == [] {
      StartSound(c);
    } else {
      var n := |items| - 1;
      LoopSound(c, items[..n]);
      if !C.After(c, items[..n]).stopped { TurnedSound(c, C.After(c, items[..n]), items[n], c.turns(n)); }
    }
  }

  lemma StartSound(c: C.Setting)
    ensures Sound(C.Start(c.killed).events) && NoPark(C.Start(c.killed).events)
  {
  }

  // ---------------------------------------------------------------------------------------------
  // Running the script
  // ---------------------------------------------------------------------------------------------

  /** The approvals a run leaves behind. */
  function ParkedRows(r: RunId, now: Time, events: seq<C.Event>): (rows: seq<Approval>) {
    if events != [] && events[|events| - 1].Awaiting? && events[|events| - 1].act.Act? then
      var act := events[|events| - 1].act;
      [Approval(r, act.tool, act.args, Pending, now + APPROVAL_TTL, None, None, None)]
    else []
  }

  /** State `s'` is state `s` after worker `w` did what the events report. */
  predicate Did(s: State, s': State, w: WorkerId, e: EntryId, r: RunId, seen: RunStatus, events: seq<C.Event>) {
    && s'.now == s.now && s'.runs == s.runs
    && s'.calls == s.calls + Calls(w, events)
    && s'.approvals == s.approvals + ParkedRows(r, s.now, events)
    && JobOf(s', w) == if NoPark(events) then Running(e, r, seen) else Protocol.Parked(e, r, seen)
  }

  lemma EventDone(s: State, s': State, w: WorkerId, e: EntryId, r: RunId, seen: RunStatus, events: seq<C.Event>, n: nat)
    requires WF(s') && Sound(events) && n + 1 == |events|
    requires Did(s, s', w, e, r, seen, events[..n]) && NoPark(events[..n])
    ensures
      var acts := ActionOf(events[n]);
      Did(s, if acts == [] then s' else Step(s', Worker(w, acts[0])), w, e, r, seen, events)
  {
    hide WF;
    var ev := events[n];
    assert SoundAt(events, n, ev);
    assert NoPark(events) <==> !ev.Awaiting? by { assert forall i | 0 <= i < n :: events[i] == events[..n][i]; }
    NoRows(r, s.now, events[..n]);
  }

  lemma NoRows(r: RunId, now: Time, events: seq<C.Event>)
    requires NoPark(events)
    ensures ParkedRows(r, now, events) == []
  {
  }

  lemma SoundBefore(events: seq<C.Event>, n: nat)
    requires Sound(events) && n + 1 == |events|
    ensures Sound(events[..n]) && NoPark(events[..n])
  {
    hide Verdict0;
    forall i | 0 <= i < n ensures SoundAt(events[..n], i, events[..n][i]) && !events[..n][i].Awaiting? {
      assert SoundAt(events, i, events[i]);
    }
  }

  lemma {:induction false} ScriptRuns(
      s: State, w: WorkerId, e: EntryId, r: RunId, seen: RunStatus, events: seq<C.Event>)
    requires WF(s) && JobOf(s, w) == Running(e, r, seen) && Sound(events)
    ensures Did(s, Exec(s, Script(w, events)), w, e, r, seen, events)
  {
    hide WF, Step, Did, Sound, NoPark, ActionOf;
    if events == [] {
      NothingDone(s, w, e, r, seen);
    } else {
      var n := |events| - 1;
      SoundBefore(events, n);
      ScriptRuns(s, w, e, r, seen, events[..n]);
      var acts := ActionOf(events[n]);
      var s' := Exec(s, Script(w, events[..n]));
      EventDone(s, s', w, e, r, seen, events, n);
      if acts != [] { ExecMore(s, Script(w, events[..n]), Worker(w, acts[0])); }
    }
  }

  lemma NothingDone(s: State, w: WorkerId, e: EntryId, r: RunId, seen: RunStatus)
    requires WF(s) && JobOf(s, w) == Running(e, r, seen)
    ensures Did(s, Exec(s, []), w, e, r, seen, [])
  {
    hide WF;
  }

  /**
  For every plan and every course of a run, stopped or paused from outside or not, the worker's steps in the protocol
  can follow the coordinator: each of its calls passes the guard on allowed tools, the gated action it met is parked
  with its exact tool and arguments, and the status it returns is one the protocol lets the worker write.
  */
  lemma CoordinatorConforms(
      s: State, w: WorkerId, e: EntryId, r: RunId, seen: RunStatus, c: C.Setting, plan: C.Plan, end: C.Ending)
    requires WF(s) && JobOf(s, w) == Running(e, r, seen) && r < |s.runs|
    requires c.overrides == map[]
    ensures
      var l := C.After(c, C.ItemsOf(plan));
      var res := O.DefaultRun(c, plan, end);
      var s' := Exec(s, Script(w, res.events));
      && JobOf(s', w) == Acking(e)
      && s'.runs == s.runs[r := s.runs[r].(status := res.status, heartbeat := Some(s.now))]
      && s'.calls == s.calls + Calls(w, l.events)
      && s'.approvals == s.approvals + ParkedRows(r, s.now, l.events)
      && (res.status == WaitingApproval <==>
            ParkedRows(r, s.now, l.events) != [] && !end.pauseFlag && !end.stopAsked && !l.kill)
  {
    hide WF, Sound, Step, Exec, C.After, C.ItemsOf, O.Parks, O.LoopInv, C.Evidence;
    var items := C.ItemsOf(plan);
    var l := C.After(c, items);
    var res := O.DefaultRun(c, plan, end);
    LoopSound(c, items);
    ScriptRuns(s, w, e, r, seen, l.events);
    O.WaitingMeans(c, plan, C.Evidence, end);
    O.EndsFinalWithinBudget(c, plan, C.Evidence, end);
    ParkedIsNotCompleted(c, plan, end);
    EndScript(w, l, end, res);
    var s1 := Exec(s, Script(w, l.events));
    ExecMore(s, Script(w, l.events), Worker(w, Finish(res.status, true)));
    ParksOrNot(l, r, s.now);
    LastStep(s, s1, w, e, r, seen, l.events, res.status);
  }

  lemma ParkedIsNotCompleted(c: C.Setting, plan: C.Plan, end: C.Ending)
    ensures O.Parks(C.After(c, C.ItemsOf(plan))) ==>
              O.DefaultRun(c, plan, end).status in {WaitingApproval, Paused, Cancelled}
  {
    hide C.After, C.ItemsOf, C.Evidence, C.VerdictOf, O.Clean, O.Errors, O.Parks;
    O.LoopInvAfter(c, C.ItemsOf(plan));
  }

  lemma EndScript(w: WorkerId, l: C.Loop, end: C.Ending, res: C.Result)
    requires res == C.Conclude(l, C.Evidence, end)
    ensures Script(w, res.events) == Script(w, l.events) + [Worker(w, Finish(res.status, true))]
  {
    hide C.Evidence;
    var n := |l.events|;
    assert res.events[..n] == l.events;
    if |res.events| == n + 2 {
      assert res.events[..n + 1] == l.events + [res.events[n]];
      assert res.events[..n + 1][..n] == l.events;
      assert Script(w, res.events[..n + 1]) == Script(w, l.events);
    }
  }

  lemma ParksOrNot(l: C.Loop, r: RunId, now: Time)
    requires Sound(l.events)
    ensures O.Parks(l) <==> !NoPark(l.events)
    ensures O.Parks(l) <==> ParkedRows(r, now, l.events) != []
  {
    hide Verdict0;
    if i :| 0 <= i < |l.events| && l.events[i].Awaiting? { assert SoundAt(l.events, i, l.events[i]); }
  }

  lemma LastStep(
      s: State, s1: State, w: WorkerId, e: EntryId, r: RunId, seen: RunStatus, events: seq<C.Event>, st: RunStatus)
    requires WF(s1) && Did(s, s1, w, e, r, seen, events) && r < |s.runs|
    requires Final(st) && (if NoPark(events) then st != WaitingApproval else st in {WaitingApproval, Paused, Cancelled})
    ensures
      var s' := Step(s1, Worker(w, Finish(st, true)));
      && JobOf(s', w) == Acking(e)
      && s'.runs == s.runs[r := s.runs[r].(status := st, heartbeat := Some(s.now))]
      && s'.calls == s1.calls && s'.approvals == s1.approvals
  {
    hide WF, Sound, NoPark;
  }
}
