/**
Safety of external effects: at most one continuation call per approval, and the provenance of every gated call.
*/
module Effects {
  import opened Types
  import opened Policy
  import opened Protocol
  import opened Frames

  /** How often approval `a` was executed. */
  function CountCalls(calls: seq<Call>, a: ApprovalId): (n: nat) {
    if calls == [] then 0
    else
      var last := calls[|calls| - 1];
      CountCalls(calls[..|calls| - 1], a) + if last.Continued? && last.approval == a then 1 else 0
  }

  lemma CountAppend(calls: seq<Call>, c: Call, a: ApprovalId)
    ensures CountCalls(calls + [c], a)
            == CountCalls(calls, a) + if c.Continued? && c.approval == a then 1 else 0
  {
    assert (calls + [c])[..|calls|] == calls;
  }

  lemma {:induction false} CountPositive(calls: seq<Call>, i: nat)
    requires i < |calls| && calls[i].Continued?
    ensures CountCalls(calls, calls[i].approval) >= 1
  {
    if i < |calls| - 1 {
      CountPositive(calls[..|calls| - 1], i);
    }
  }

  // ---------------------------------------------------------------------------------------------
  // The invariant
  // ---------------------------------------------------------------------------------------------

  predicate ApprovalOk(s: State, a: ApprovalId, ap: Approval) {
    && Verdict0(ap.tool).RequireApproval?
    && (ap.decidedAt.Some? ==> ap.decidedAt.value <= s.now)
    && (ap.status in {Approved, Consumed} ==> ap.decidedAt.Some? && ap.decidedAt.value <= ap.expires)
    && (ap.status == Consumed <==> ap.consumedBy.Some?)
    && (ap.status == Consumed ==> ap.consumedAt.Some? && ap.decidedAt.value <= ap.consumedAt.value <= ap.expires)
    && (ap.status == Consumed <==> a in s.executions)
    && CountCalls(s.calls, a) <= (if ap.status == Consumed then 1 else 0)
    && (a in s.executions && s.executions[a] == Succeeded ==> a in s.returned)
    && (a in s.returned ==> CountCalls(s.calls, a) == 1)
  }

  predicate HolderOk(s: State, w: WorkerId, j: Job) {
    && (j.Settling? ==> j.approval < |s.approvals| && s.approvals[j.approval].status == Consumed && j.found.Some?)
    && (j.Holds() ==> j.approval < |s.approvals| && s.approvals[j.approval].consumedBy == Some(w))
    && (j.Holds() ==> CountCalls(s.calls, j.approval) == if j.ToCall? then 0 else 1)
    && (j.Returned? || (j.Settling? && j.found == Some(Succeeded)) ==> j.approval in s.returned)
  }

  predicate CallOk(s: State, c: Call) {
    match c
    case Direct(_, tool, _) => Verdict0(tool).Allow?
    case Continued(w, tool, args, a) =>
      && a < |s.approvals|
      && s.approvals[a].consumedBy == Some(w)
      && s.approvals[a].tool == tool
      && s.approvals[a].args == args
  }

  predicate EffectInv(s: State) {
    && (forall a | 0 <= a < |s.approvals| :: ApprovalOk(s, a, s.approvals[a]))
    && (forall a | a in s.executions :: a < |s.approvals|)
    && (forall a | a in s.returned :: a < |s.approvals|)
    && (forall w | w in s.jobs :: HolderOk(s, w, s.jobs[w]))
    && (forall i | 0 <= i < |s.calls| :: CallOk(s, s.calls[i]))
  }

  /**
  `s2` differs from `s1` in no approval, execution record or call, and no worker of `s2` newly holds an approval.
  */
  predicate SameEffects(s1: State, s2: State) {
    && s1.now <= s2.now
    && s1.approvals == s2.approvals
    && s1.executions == s2.executions
    && s1.calls == s2.calls
    && s1.returned == s2.returned
    && (forall w | w in s2.jobs :: SameHold(s1, w, s2.jobs[w]))
  }

  predicate SameHold(s1: State, w: WorkerId, j: Job) {
    (!j.Holds() && !j.Settling?) || JobOf(s1, w) == j
  }

  lemma FrameKeeps(s1: State, s2: State)
    requires EffectInv(s1) && SameEffects(s1, s2)
    ensures EffectInv(s2)
  {
    hide CountCalls;
  }

  /** A row that was not consumed is decided. */
  lemma RowKeeps(s: State, a: ApprovalId, ap: Approval)
    requires EffectInv(s) && a < |s.approvals|
    requires s.approvals[a].status == Pending && ap.status in {Approved, Rejected, Expired}
    requires ap == s.approvals[a].(status := ap.status, decidedAt := ap.decidedAt)
    requires ap.status == Approved ==> s.now <= ap.expires && ap.decidedAt == Some(s.now)
    requires ap.decidedAt.Some? ==> ap.decidedAt.value <= s.now
    ensures EffectInv(s.(approvals := s.approvals[a := ap]))
  {
    hide CountCalls;
  }

  lemma DecideKeeps(s: State, a: ApprovalId, ruling: Ruling)
    requires WF(s) && EffectInv(s)
    ensures EffectInv(DoDecide(s, a, ruling))
  {
    hide WF, JobOk, RunOk, EntryOk, CountCalls, HolderOk, CallOk;
    if a < |s.approvals| && s.approvals[a].status == Pending {
      var s' := DoDecide(s, a, ruling);
      if s'.approvals[a] != s.approvals[a] {
        assert ApprovalOk(s, a, s.approvals[a]);
        RowKeeps(s, a, s'.approvals[a]);
        FrameKeeps(s.(approvals := s'.approvals), s');
      } else {
        FrameKeeps(s, s');
      }
    }
  }

  lemma ApiKeeps(s: State, act: ApiAction)
    requires WF(s) && EffectInv(s)
    ensures EffectInv(ApiStep(s, act))
  {
    hide WF, EffectInv;
    match act
    case CreateRun(_) => FrameKeeps(s, ApiStep(s, act));
    case DecideApproval(a, ruling) => DecideKeeps(s, a, ruling);
  }

  lemma SchedulerKeeps(s: State, act: SchedulerAction)
    requires WF(s) && EffectInv(s)
    ensures EffectInv(SchedulerStep(s, act))
  {
    hide WF, EffectInv;
    FrameKeeps(s, SchedulerStep(s, act));
  }

  lemma SetJobKeeps(s: State, w: WorkerId, j: Job)
    requires EffectInv(s) && HolderOk(s, w, j)
    ensures EffectInv(s.(jobs := s.jobs[w := j]))
  {
    hide CountCalls;
  }

  /** An approved row is consumed by a worker that holds nothing. */
  lemma ConsumeKeeps(s: State, a: ApprovalId, w: WorkerId)
    requires WF(s) && EffectInv(s) && a < |s.approvals|
    requires s.approvals[a].status == Approved && s.now <= s.approvals[a].expires
    ensures EffectInv(Consume(s, a, w)) && CountCalls(s.calls, a) == 0 && a !in s.executions
  {
    hide WF, JobOk, RunOk, EntryOk, CountCalls;
    assert ApprovalOk(s, a, s.approvals[a]);
  }

  lemma LookApprovedKeeps(s: State, w: WorkerId)
    requires WF(s) && EffectInv(s)
    ensures EffectInv(DoLookApproved(s, w))
  {
    hide WF, JobOk, RunOk, EntryOk, EffectInv, CountCalls, Latest;
    match JobOf(s, w)
    case Claimed(e, r, _) =>
      var a := Latest(s.approvals, r, Approved);
      if a.Some? && s.now <= s.approvals[a.value].expires && a.value !in s.executions {
        ConsumeKeeps(s, a.value, w);
        SetJobKeeps(Consume(s, a.value, w), w, ToCall(e, r, a.value));
      } else {
        FrameKeeps(s, DoLookApproved(s, w));
      }
    case _ =>
  }

  lemma LookConsumedKeeps(s: State, w: WorkerId)
    requires WF(s) && EffectInv(s)
    ensures EffectInv(DoLookConsumed(s, w))
  {
    hide WF, CountCalls, HolderOk, CallOk;
    var s' := DoLookConsumed(s, w);
    var j := JobOf(s', w);
    if j.Settling? && j != JobOf(s, w) {
      assert ApprovalOk(s, j.approval, s.approvals[j.approval]);
      assert HolderOk(s, w, j) by { HolderSettling(s, w, j); }
      SetJobKeeps(s, w, j);
    } else {
      FrameKeeps(s, s');
    }
  }

  lemma HolderSettling(s: State, w: WorkerId, j: Job)
    requires j.Settling? && j.approval < |s.approvals| && s.approvals[j.approval].status == Consumed && j.found.Some?
    requires j.found == Some(Succeeded) ==> j.approval in s.returned
    ensures HolderOk(s, w, j)
  {
  }

  /** An execution record changes its status; it says Succeeded only of a call that returned. */
  lemma RecordKeeps(s: State, a: ApprovalId, ex: ExStatus)
    requires EffectInv(s) && a in s.executions
    requires ex == Succeeded ==> a in s.returned
    ensures EffectInv(s.(executions := s.executions[a := ex]))
  {
    hide CountCalls;
  }

  lemma SettleKeeps(s: State, w: WorkerId)
    requires WF(s) && EffectInv(s)
    ensures EffectInv(DoSettle(s, w))
  {
    hide WF, JobOk, RunOk, EntryOk, CountCalls, CallOk;
    var s' := DoSettle(s, w);
    var j := JobOf(s, w);
    if j.Settling? {
      assert HolderOk(s, w, j) && ApprovalOk(s, j.approval, s.approvals[j.approval]);
      if s'.executions != s.executions { RecordKeeps(s, j.approval, Ambiguous); }
      FrameKeeps(s.(executions := s'.executions), s');
    }
  }

  /** A call is added of an approval nobody else holds and that was not executed before. */
  lemma CallKeeps(s: State, c: Call)
    requires EffectInv(s) && CallOk(s, c)
    requires c.Continued? ==> CountCalls(s.calls, c.approval) == 0 && c.approval !in s.returned
    requires c.Continued? ==> forall w | w in s.jobs && s.jobs[w].Holds() :: s.jobs[w].approval != c.approval
    ensures EffectInv(s.(calls := s.calls + [c]))
  {
    hide CountCalls;
    forall a: ApprovalId
      ensures CountCalls(s.calls + [c], a)
              == CountCalls(s.calls, a) + if c.Continued? && c.approval == a then 1 else 0
    {
      CountAppend(s.calls, c, a);
    }
  }

  lemma StartCallKeeps(s: State, w: WorkerId)
    requires WF(s) && EffectInv(s)
    ensures EffectInv(DoStartCall(s, w))
  {
    hide WF, CountCalls;
    if JobOf(s, w).ToCall? {
      var j := s.jobs[w];
      assert HolderOk(s, w, j) && ApprovalOk(s, j.approval, s.approvals[j.approval]);
      var ap := s.approvals[j.approval];
      var c := Continued(w, ap.tool, ap.args, j.approval);
      // The same state with the approval let go.
      var s0 := s.(jobs := s.jobs[w := Idle]);
      SetJobKeeps(s, w, Idle);
      CallKeeps(s0, c);
      CountAppend(s.calls, c, j.approval);
      var s1 := s0.(calls := s.calls + [c]);
      SetJobKeeps(s1, w, InCall(j.entry, j.run, j.approval));
      assert s1.jobs[w := InCall(j.entry, j.run, j.approval)] == DoStartCall(s, w).jobs;
    }
  }

  lemma ReturnKeeps(s: State, w: WorkerId)
    requires WF(s) && EffectInv(s)
    ensures EffectInv(DoCallReturns(s, w))
  {
    hide WF, CountCalls;
    var j := JobOf(s, w);
    if j.InCall? {
      assert HolderOk(s, w, j) && ApprovalOk(s, j.approval, s.approvals[j.approval]);
    }
  }

  lemma FinalizeKeeps(s: State, w: WorkerId)
    requires WF(s) && EffectInv(s)
    ensures EffectInv(DoCallRaises(s, w))
    ensures EffectInv(DoFinalizeRaises(s, w))
    ensures EffectInv(DoFinalizeOk(s, w))
    ensures EffectInv(DoFinalizeAmbiguous(s, w))
  {
    hide WF, JobOk, RunOk, EntryOk, CountCalls, CallOk;
    var j := JobOf(s, w);
    if j.InCall? || j.Returned? {
      SetJobKeeps(s, w, CallFailed(j.entry, j.run, j.approval));
    }
    if j.Returned? || j.CallFailed? {
      assert HolderOk(s, w, j) && ApprovalOk(s, j.approval, s.approvals[j.approval]);
      var ex := if j.Returned? then Succeeded else Ambiguous;
      RecordKeeps(s, j.approval, ex);
      FrameKeeps(s.(executions := s.executions[j.approval := ex]),
                 if j.Returned? then DoFinalizeOk(s, w) else DoFinalizeAmbiguous(s, w));
    }
  }

  lemma ParkKeeps(s: State, w: WorkerId, tool: string, args: Json)
    requires WF(s) && EffectInv(s)
    ensures EffectInv(DoPark(s, w, tool, args))
  {
    hide WF, CountCalls;
    NoCallYet(s, |s.calls|);
    assert s.calls[..|s.calls|] == s.calls;
  }

  /** No call names an approval that does not exist. */
  lemma {:induction false} NoCallYet(s: State, n: nat)
    requires n <= |s.calls| && forall i | 0 <= i < n :: CallOk(s, s.calls[i])
    ensures CountCalls(s.calls[..n], |s.approvals|) == 0
  {
    if n > 0 {
      assert s.calls[..n][..n - 1] == s.calls[..n - 1];
      NoCallYet(s, n - 1);
    }
  }

  lemma ClaimingKeeps(s: State, w: WorkerId, e: EntryId)
    requires WF(s) && EffectInv(s)
    ensures EffectInv(DoRead(s, w, e))
    ensures EffectInv(DoReclaim(s, w, e))
    ensures EffectInv(DoLoad(s, w))
    ensures EffectInv(DoReadClock(s, w))
    ensures EffectInv(DoClaim(s, w))
  {
    hide WF, EffectInv, JobOk, RunOk, EntryOk;
    FrameKeeps(s, DoRead(s, w, e));
    FrameKeeps(s, DoReclaim(s, w, e));
    FrameKeeps(s, DoLoad(s, w));
    FrameKeeps(s, DoReadClock(s, w));
    FrameKeeps(s, DoClaim(s, w));
  }

  lemma FinishKeeps(s: State, w: WorkerId, st: RunStatus, written: bool)
    requires WF(s) && EffectInv(s)
    ensures EffectInv(DoFinish(s, w, st, written))
  {
    hide WF, EffectInv, JobOk, RunOk, EntryOk;
    FrameKeeps(s, DoFinish(s, w, st, written));
  }

  lemma EndingKeeps(s: State, w: WorkerId, at: Time)
    requires WF(s) && EffectInv(s)
    ensures EffectInv(DoBeat(s, w, at))
    ensures EffectInv(DoAck(s, w))
    ensures EffectInv(SetJob(s, w, Idle))
  {
    hide WF, EffectInv, RunOk, EntryOk;
    FrameKeeps(s, DoBeat(s, w, at));
    FrameKeeps(s, DoAck(s, w));
    FrameKeeps(s, SetJob(s, w, Idle));
  }

  lemma WorkerKeeps(s: State, w: WorkerId, act: WorkerAction)
    requires WF(s) && EffectInv(s)
    ensures EffectInv(WorkerStep(s, w, act))
  {
    hide WF, EffectInv;
    match act
    case Read(e) => ClaimingKeeps(s, w, e);
    case Reclaim(e) => ClaimingKeeps(s, w, e);
    case Load => ClaimingKeeps(s, w, 0);
    case ReadClock => ClaimingKeeps(s, w, 0);
    case Claim => ClaimingKeeps(s, w, 0);
    case LookApproved => LookApprovedKeeps(s, w);
    case LookConsumed => LookConsumedKeeps(s, w);
    case Settle => SettleKeeps(s, w);
    case StartCall => StartCallKeeps(s, w);
    case CallReturns => ReturnKeeps(s, w);
    case CallRaises => FinalizeKeeps(s, w);
    case FinalizeOk => FinalizeKeeps(s, w);
    case FinalizeRaises => FinalizeKeeps(s, w);
    case FinalizeAmbiguous => FinalizeKeeps(s, w);
    case CallAllowed(tool, args) =>
      if JobOf(s, w).Running? && Verdict0(tool).Allow? { CallKeeps(s, Direct(w, tool, args)); }
    case Park(tool, args) => ParkKeeps(s, w, tool, args);
    case Beat(at) => EndingKeeps(s, w, at);
    case Finish(st, written) => FinishKeeps(s, w, st, written);
    case Ack => EndingKeeps(s, w, 0);
    case Crash => EndingKeeps(s, w, 0);
  }

  lemma StepKeeps(s: State, act: Action)
    requires WF(s) && EffectInv(s)
    ensures EffectInv(Step(s, act))
  {
    hide WF, EffectInv;
    match act
    case Api(a) => ApiKeeps(s, a);
    case Scheduler(a) => SchedulerKeeps(s, a);
    case Worker(w, a) => WorkerKeeps(s, w, a);
    case Tick(_) => FrameKeeps(s, Step(s, act));
    case ForeignAdd(_) => FrameKeeps(s, Step(s, act));
  }

  // ---------------------------------------------------------------------------------------------
  // What a step may do to approvals, calls and holders
  // ---------------------------------------------------------------------------------------------

  /** `act` parks approval `a`: a running worker meets a gated tool. */
  predicate Parks(s: State, act: Action, a: ApprovalId, s': State) {
    && act.Worker? && act.act.Park?
    && JobOf(s, act.worker).Running?
    && Verdict0(act.act.tool).RequireApproval?
    && a == |s.approvals|
    && s'.approvals == s.approvals + [Approval(JobOf(s, act.worker).run, act.act.tool, act.act.args, Pending,
                                               s.now + APPROVAL_TTL, None, None, None)]
  }

  /** `act` approves `a`, which is pending and not expired. */
  predicate Approves(s: State, act: Action, a: ApprovalId, s': State) {
    && act == Api(DecideApproval(a, Approve))
    && a < |s.approvals| == |s'.approvals|
    && s.approvals[a].status == Pending && s.now <= s.approvals[a].expires
    && s'.approvals[a] == s.approvals[a].(status := Approved, decidedAt := Some(s.now))
  }

  /** Worker `w`, which claimed the run of `a`, consumes `a`, which is approved and not expired. */
  predicate Consumes(s: State, act: Action, a: ApprovalId, w: WorkerId, s': State) {
    && act == Worker(w, LookApproved)
    && a < |s.approvals| == |s'.approvals|
    && s.approvals[a].status == Approved && s.now <= s.approvals[a].expires
    && JobOf(s, w).Claimed? && JobOf(s, w).run == s.approvals[a].run
    && s'.approvals[a] == s.approvals[a].(status := Consumed, consumedAt := Some(s.now), consumedBy := Some(w))
  }

  /** Worker `w` executes approval `a`. */
  predicate Executes(s: State, act: Action, a: ApprovalId, w: WorkerId, s': State) {
    && act == Worker(w, StartCall)
    && JobOf(s, w).ToCall? && JobOf(s, w).approval == a < |s.approvals|
    && s'.calls == s.calls + [Continued(w, s.approvals[a].tool, s.approvals[a].args, a)]
  }

  predicate MovedApproval(s: State, act: Action, a: ApprovalId, s': State)
    requires a < |s.approvals| <= |s'.approvals|
  {
    || s'.approvals[a] == s.approvals[a]
    || Approves(s, act, a, s')
    || (act.Worker? && Consumes(s, act, a, act.worker, s'))
    || (s.approvals[a].status == Pending && s'.approvals[a].status in {Rejected, Expired}
        && s'.approvals[a] == s.approvals[a].(status := s'.approvals[a].status, decidedAt := s'.approvals[a].decidedAt))
  }

  lemma WorkerApprovalsMove(s: State, w: WorkerId, act: WorkerAction)
    requires WF(s)
    ensures |s.approvals| <= |WorkerStep(s, w, act).approvals|
    ensures forall a | 0 <= a < |s.approvals| :: MovedApproval(s, Worker(w, act), a, WorkerStep(s, w, act))
    ensures |s.approvals| < |WorkerStep(s, w, act).approvals|
            ==> Parks(s, Worker(w, act), |s.approvals|, WorkerStep(s, w, act))
  {
    hide WF, JobOk, EntryOk, RunOk;
    if !act.LookApproved? && !act.Park? {
      assert WorkerStep(s, w, act).approvals == s.approvals;
    }
  }

  lemma DecisionMoves(s: State, a: ApprovalId, ruling: Ruling)
    requires WF(s)
    ensures |s.approvals| == |DoDecide(s, a, ruling).approvals|
    ensures forall b | 0 <= b < |s.approvals| ::
              MovedApproval(s, Api(DecideApproval(a, ruling)), b, DoDecide(s, a, ruling))
  {
    hide WF, JobOk, EntryOk, RunOk, KeyUsed, Terminal, Consumes;
  }

  lemma DecisionsMove(s: State, act: ApiAction)
    requires WF(s)
    ensures |s.approvals| == |ApiStep(s, act).approvals|
    ensures forall a | 0 <= a < |s.approvals| :: MovedApproval(s, Api(act), a, ApiStep(s, act))
  {
    hide WF, JobOk, EntryOk, RunOk, KeyUsed, Terminal, DoDecide;
    match act
    case CreateRun(_) => assert ApiStep(s, act).approvals == s.approvals;
    case DecideApproval(a, ruling) => DecisionMoves(s, a, ruling);
  }

  lemma SchedulerKeepsApprovals(s: State, act: SchedulerAction)
    requires WF(s)
    ensures SchedulerStep(s, act).approvals == s.approvals
  {
    hide WF, JobOk, EntryOk, RunOk;
  }

  lemma ApprovalsMove(s: State, act: Action)
    requires WF(s)
    ensures |s.approvals| <= |Step(s, act).approvals|
    ensures forall a | 0 <= a < |s.approvals| :: MovedApproval(s, act, a, Step(s, act))
    ensures |s.approvals| < |Step(s, act).approvals| ==> Parks(s, act, |s.approvals|, Step(s, act))
  {
    hide WF, JobOk, EntryOk, RunOk;
    match act
    case Api(a) => hide ApiStep; DecisionsMove(s, a);
    case Scheduler(a) => SchedulerKeepsApprovals(s, a);
    case Worker(w, a) => hide WorkerStep; WorkerApprovalsMove(s, w, a);
    case Tick(_) =>
    case ForeignAdd(_) =>
  }

  lemma WorkerCallsMove(s: State, w: WorkerId, act: WorkerAction)
    requires WF(s)
    ensures
      var s' := WorkerStep(s, w, act);
      if act.CallAllowed? && JobOf(s, w).Running? && Verdict0(act.tool).Allow? then
        s'.calls == s.calls + [Direct(w, act.tool, act.args)]
      else if act.StartCall? && JobOf(s, w).ToCall? then Executes(s, Worker(w, act), JobOf(s, w).approval, w, s')
      else s'.calls == s.calls
  {
    hide WF, EntryOk, RunOk;
    JobIsOk(s, w);
    if !act.StartCall? && !act.CallAllowed? {
      assert WorkerStep(s, w, act).calls == s.calls;
    }
  }

  lemma CallsMove(s: State, act: Action)
    requires WF(s)
    ensures
      var s' := Step(s, act);
      if act.Worker? && act.act.CallAllowed? && JobOf(s, act.worker).Running? && Verdict0(act.act.tool).Allow? then
        s'.calls == s.calls + [Direct(act.worker, act.act.tool, act.act.args)]
      else if act.Worker? && act.act.StartCall? && JobOf(s, act.worker).ToCall? then
        Executes(s, act, JobOf(s, act.worker).approval, act.worker, s')
      else s'.calls == s.calls
  {
    hide WF, EntryOk, RunOk;
    match act
    case Worker(w, wact) => hide WorkerStep; WorkerCallsMove(s, w, wact);
    case _ =>
  }

  /** A worker comes to hold an approval for execution only by consuming it while it is approved. */
  lemma HoldersMove(s: State, act: Action, w: WorkerId)
    requires WF(s) && JobOf(Step(s, act), w).ToCall?
    ensures || JobOf(Step(s, act), w) == JobOf(s, w)
            || (var a := JobOf(Step(s, act), w).approval; a < |s.approvals| && s.approvals[a].status == Approved)
  {
    hide WF, JobOk, EntryOk, RunOk;
    match act
    case Worker(v, wact) =>
      hide WorkerStep;
      OthersKeepJobs(s, v, wact);
      if v == w { OwnHold(s, w, wact); }
    case _ =>
  }

  lemma OwnHold(s: State, w: WorkerId, act: WorkerAction)
    requires WF(s) && JobOf(WorkerStep(s, w, act), w).ToCall?
    ensures || JobOf(WorkerStep(s, w, act), w) == JobOf(s, w)
            || (var a := JobOf(WorkerStep(s, w, act), w).approval;
                a < |s.approvals| && s.approvals[a].status == Approved)
  {
    hide WF, JobOk, EntryOk, RunOk;
  }

  lemma {:induction false} InvAt(acts: seq<Action>, n: nat)
    requires n <= |acts|
    ensures EffectInv(At(acts, n))
  {
    hide WF;
    if n > 0 {
      hide EffectInv;
      InvAt(acts, n - 1);
      AtNext(acts, n - 1);
      StepKeeps(At(acts, n - 1), acts[n - 1]);
    }
  }

  // ---------------------------------------------------------------------------------------------
  // At most one effect per approval
  // ---------------------------------------------------------------------------------------------

  /**
  In every reachable state: one call at most, none before consumption, and a success only of a call that returned.
  */
  lemma AtMostOneCall(acts: seq<Action>, a: ApprovalId)
    ensures
      var s := Exec(Init(), acts);
      && CountCalls(s.calls, a) <= 1
      && (a < |s.approvals| && s.approvals[a].status != Consumed ==> CountCalls(s.calls, a) == 0)
      && (a in s.executions <==> a < |s.approvals| && s.approvals[a].status == Consumed)
      && (a in s.executions && s.executions[a] == Succeeded ==> CountCalls(s.calls, a) == 1 && a in s.returned)
  {
    assert acts[..|acts|] == acts;
    InvAt(acts, |acts|);
    var s := Exec(Init(), acts);
    if a < |s.approvals| {
      assert ApprovalOk(s, a, s.approvals[a]);
    } else {
      NoCallBeyond(s, a, s.calls);
    }
  }

  lemma {:induction false} NoCallBeyond(s: State, a: ApprovalId, calls: seq<Call>)
    requires a >= |s.approvals| && forall i | 0 <= i < |calls| :: CallOk(s, calls[i])
    ensures CountCalls(calls, a) == 0
  {
    if calls != [] {
      NoCallBeyond(s, a, calls[..|calls| - 1]);
    }
  }

  /** Nobody is about to execute approval `a`. */
  predicate LetGo(s: State, a: ApprovalId) {
    && a < |s.approvals|
    && s.approvals[a].status == Consumed
    && (forall w | w in s.jobs && s.jobs[w].ToCall? :: s.jobs[w].approval != a)
  }

  lemma StepLetsGo(s: State, act: Action, a: ApprovalId)
    requires WF(s) && LetGo(s, a)
    ensures LetGo(Step(s, act), a) && CountCalls(Step(s, act).calls, a) == CountCalls(s.calls, a)
  {
    hide WF, CountCalls, Step;
    ApprovalsMove(s, act);
    CallsMove(s, act);
    var s' := Step(s, act);
    assert MovedApproval(s, act, a, s');
    forall w | w in s'.jobs && s'.jobs[w].ToCall? ensures s'.jobs[w].approval != a {
      HoldersMove(s, act, w);
    }
    if act.Worker? && act.act.CallAllowed? {
      CountAppend(s.calls, Direct(act.worker, act.act.tool, act.act.args), a);
    } else if act.Worker? && act.act.StartCall? && JobOf(s, act.worker).ToCall? {
      var b := s.jobs[act.worker].approval;
      CountAppend(s.calls, Continued(act.worker, s.approvals[b].tool, s.approvals[b].args, b), a);
    }
  }

  /** Once consumed and let go of, an approval is never executed again, whatever happens next. */
  lemma {:induction false} ConsumedIsFinal(s: State, acts: seq<Action>, a: ApprovalId)
    requires WF(s) && EffectInv(s) && LetGo(s, a)
    ensures CountCalls(Exec(s, acts).calls, a) == CountCalls(s.calls, a)
    ensures EffectInv(Exec(s, acts)) && LetGo(Exec(s, acts), a)
    decreases |acts|
  {
    if acts != [] {
      var before := acts[..|acts| - 1];
      ConsumedIsFinal(s, before, a);
      StepKeeps(Exec(s, before), acts[|acts| - 1]);
      StepLetsGo(Exec(s, before), acts[|acts| - 1], a);
    }
  }

  // ---------------------------------------------------------------------------------------------
  // Provenance of gated calls
  // ---------------------------------------------------------------------------------------------

  predicate ParkedAt(acts: seq<Action>, k: nat, a: ApprovalId) {
    k < |acts| && Parks(At(acts, k), acts[k], a, At(acts, k + 1))
  }

  predicate ApprovedAt(acts: seq<Action>, k: nat, a: ApprovalId) {
    k < |acts| && Approves(At(acts, k), acts[k], a, At(acts, k + 1))
  }

  predicate ConsumedAt(acts: seq<Action>, k: nat, a: ApprovalId, w: WorkerId) {
    k < |acts| && Consumes(At(acts, k), acts[k], a, w, At(acts, k + 1))
  }

  predicate ExecutedAt(acts: seq<Action>, k: nat, a: ApprovalId, w: WorkerId) {
    k < |acts| && Executes(At(acts, k), acts[k], a, w, At(acts, k + 1))
  }

  /** Row `a` carries what the coordinator wrote when it parked the action. */
  predicate SameAction(acts: seq<Action>, p: nat, a: ApprovalId, ap: Approval)
    requires p < |acts|
  {
    && acts[p].Worker? && acts[p].act.Park? && JobOf(At(acts, p), acts[p].worker).Running?
    && ap.tool == acts[p].act.tool && ap.args == acts[p].act.args
    && ap.run == JobOf(At(acts, p), acts[p].worker).run
  }

  lemma {:induction false} WasParked(acts: seq<Action>, n: nat, a: ApprovalId) returns (p: nat)
    requires n <= |acts| && a < |At(acts, n).approvals|
    ensures p < n && ParkedAt(acts, p, a)
    ensures SameAction(acts, p, a, At(acts, n).approvals[a])
  {
    hide WF, Step;
    AtNext(acts, n - 1);
    ApprovalsMove(At(acts, n - 1), acts[n - 1]);
    if a < |At(acts, n - 1).approvals| {
      p := WasParked(acts, n - 1, a);
      assert MovedApproval(At(acts, n - 1), acts[n - 1], a, At(acts, n));
    } else {
      p := n - 1;
    }
  }

  lemma {:induction false} WasApproved(acts: seq<Action>, n: nat, a: ApprovalId) returns (d: nat)
    requires n <= |acts| && a < |At(acts, n).approvals|
    requires At(acts, n).approvals[a].status in {Approved, Consumed}
    ensures d < n && ApprovedAt(acts, d, a)
  {
    hide WF, Step;
    AtNext(acts, n - 1);
    var s := At(acts, n - 1);
    ApprovalsMove(s, acts[n - 1]);
    if a < |s.approvals| {
      assert MovedApproval(s, acts[n - 1], a, At(acts, n));
      if s.approvals[a].status in {Approved, Consumed} {
        d := WasApproved(acts, n - 1, a);
      } else {
        d := n - 1;
      }
    }
  }

  lemma {:induction false} WasConsumed(acts: seq<Action>, n: nat, a: ApprovalId, w: WorkerId) returns (c: nat)
    requires n <= |acts| && a < |At(acts, n).approvals|
    requires At(acts, n).approvals[a].consumedBy == Some(w)
    ensures c < n && ConsumedAt(acts, c, a, w)
  {
    hide WF, Step;
    AtNext(acts, n - 1);
    var s := At(acts, n - 1);
    ApprovalsMove(s, acts[n - 1]);
    if a < |s.approvals| {
      assert MovedApproval(s, acts[n - 1], a, At(acts, n));
      if s.approvals[a].consumedBy == Some(w) {
        c := WasConsumed(acts, n - 1, a, w);
      } else {
        c := n - 1;
        InvAt(acts, n - 1);
        assert ApprovalOk(s, a, s.approvals[a]);
      }
    }
  }

  lemma {:induction false} WasExecuted(acts: seq<Action>, n: nat, i: nat) returns (x: nat)
    requires n <= |acts| && i < |At(acts, n).calls| && At(acts, n).calls[i].Continued?
    ensures
      var c := At(acts, n).calls[i];
      && x < n && ExecutedAt(acts, x, c.approval, c.worker)
      && c.tool == At(acts, x).approvals[c.approval].tool && c.args == At(acts, x).approvals[c.approval].args
  {
    hide WF, Step;
    AtNext(acts, n - 1);
    var s := At(acts, n - 1);
    CallsMove(s, acts[n - 1]);
    if i < |s.calls| {
      x := WasExecuted(acts, n - 1, i);
    } else {
      x := n - 1;
    }
  }

  /**
  Every call of a tool the policy does not simply allow was parked by a running coordinator with exactly this tool and
  these arguments, then approved while pending and unexpired, then consumed unexpired by the very worker that later
  made the call, in this order.
  */
  lemma Provenance(acts: seq<Action>, i: nat) returns (p: nat, d: nat, c: nat, x: nat)
    requires i < |Exec(Init(), acts).calls| && !Verdict0(Exec(Init(), acts).calls[i].tool).Allow?
    ensures
      var call := Exec(Init(), acts).calls[i];
      && call.Continued?
      && p < d < c < x < |acts|
      && ParkedAt(acts, p, call.approval)
      && acts[p].act.tool == call.tool && acts[p].act.args == call.args
      && ApprovedAt(acts, d, call.approval)
      && ConsumedAt(acts, c, call.approval, call.worker)
      && ExecutedAt(acts, x, call.approval, call.worker)
  {
    hide WF, Step, Verdict0;
    assert acts[..|acts|] == acts;
    InvAt(acts, |acts|);
    var call := At(acts, |acts|).calls[i];
    assert CallOk(At(acts, |acts|), call);
    x := WasExecuted(acts, |acts|, i);
    InvAt(acts, x);
    assert HolderOk(At(acts, x), call.worker, JobOf(At(acts, x), call.worker));
    c := WasConsumed(acts, x, call.approval, call.worker);
    d := WasApproved(acts, c, call.approval);
    p := WasParked(acts, d, call.approval);
    var q := WasParked(acts, x, call.approval);
    ParkedOnce(acts, p, q, call.approval);
  }

  lemma {:induction false} RowsStay(acts: seq<Action>, m: nat, n: nat)
    requires m <= n <= |acts|
    ensures |At(acts, m).approvals| <= |At(acts, n).approvals|
    decreases n - m
  {
    hide WF, Step;
    if m < n {
      AtNext(acts, m);
      ApprovalsMove(At(acts, m), acts[m]);
      RowsStay(acts, m + 1, n);
    }
  }

  /** An approval is parked by one action only. */
  lemma ParkedOnce(acts: seq<Action>, p: nat, q: nat, a: ApprovalId)
    requires ParkedAt(acts, p, a) && ParkedAt(acts, q, a)
    ensures p == q
  {
    hide WF, Step, Verdict0;
    if p < q { RowsStay(acts, p + 1, q); } else if q < p { RowsStay(acts, q + 1, p); }
  }
}
