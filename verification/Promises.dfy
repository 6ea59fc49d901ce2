/** What the protocol achieves when its steps are allowed to go through, and what its verdicts mean. */
module Promises {
  import opened Types
  import opened Policy
  import opened Protocol
  import opened Frames
  import Effects

  // ---------------------------------------------------------------------------------------------
  // When an approved action is carried out
  // ---------------------------------------------------------------------------------------------

  /** Approval `a` can still be given. */
  predicate Open(s: State, a: ApprovalId) {
    a < |s.approvals| && s.approvals[a].status == Pending && s.now <= s.approvals[a].expires
  }

  /** The run of `a` waits, or could be claimed at once, and no newer approval of that run was given. */
  predicate Ready(s: State, a: ApprovalId)
    requires a < |s.approvals|
  {
    var r := s.approvals[a].run;
    && r < |s.runs| && (s.runs[r].status == WaitingApproval || Claimable(s.runs[r], s.now))
    && NoNewerApproved(s, a)
  }

  predicate NoNewerApproved(s: State, a: ApprovalId)
    requires a < |s.approvals|
  {
    forall b | a < b < |s.approvals| :: s.approvals[b].run != s.approvals[a].run || s.approvals[b].status != Approved
  }

  /** The state once the approval was given and its outbox row published. */
  predicate Published(s: State, s': State, a: ApprovalId)
    requires a < |s.approvals| && s.approvals[a].run < |s.runs|
  {
    var r := s.approvals[a].run;
    var row := s.runs[r];
    && s'.now == s.now && s'.jobs == s.jobs && s'.executions == s.executions && s'.calls == s.calls
    && s'.approvals == s.approvals[a := s.approvals[a].(status := Approved, decidedAt := Some(s.now))]
    && s'.runs ==
       s.runs[r := if row.status == WaitingApproval then row.(status := Queued, cover := |s.outbox|) else row]
    && s'.stream == s.stream + [NewEntry(r, Some(|s.outbox|), s.now)]
    && |s'.outbox| == |s.outbox| + 1 && s'.outbox[|s.outbox|].processed && s'.outbox[|s.outbox|].run == r
  }

  lemma ApprovalIsPublished(s: State, a: ApprovalId)
    requires WF(s) && Open(s, a) && s.batch == map[]
    ensures s.approvals[a].run < |s.runs|
    ensures
      var s1 := DoDecide(s, a, Approve);
      var s2 := DoPublish(s1, |s.outbox|, true, true);
      Published(s, DoCommitPublished(s2), a)
  {
    hide WF, RunOk, EntryOk, JobOk;
    ApprovalRun(s, a);
    var s1 := DoDecide(s, a, Approve);
    assert s1.outbox[|s.outbox|] == NewRow(s.approvals[a].run, ApproveKey(a), None, s.now);
  }

  /** The state once worker `w` took the last entry of the stream as far as its claim point. */
  predicate Taken(s: State, s': State, w: WorkerId, r: RunId, e: EntryId)
    requires r < |s.runs|
  {
    && s'.now == s.now && s'.executions == s.executions && s'.calls == s.calls && s'.approvals == s.approvals
    && s'.outbox == s.outbox && |s'.runs| == |s.runs| && e < |s'.stream|
    && if Claimable(s.runs[r], s.now) then JobOf(s', w) == Claimed(e, r, s.runs[r].status) else !JobOf(s', w).Claimed?
  }

  lemma EntryIsTaken(s: State, w: WorkerId, r: RunId)
    requires WF(s) && r < |s.runs| && JobOf(s, w).Idle?
    requires s.stream != [] && s.stream[|s.stream| - 1].run == r && !s.stream[|s.stream| - 1].delivered
    ensures
      var e := |s.stream| - 1;
      Taken(s, DoClaim(DoLoad(DoRead(s, w, e), w), w), w, r, e)
  {
    hide WF, RunOk, EntryOk, JobOk;
    var e := |s.stream| - 1;
    var s1 := DoRead(s, w, e);
    assert JobOf(s1, w) == Got(e) && s1.stream[e].run == r && s1.runs == s.runs;
    var s2 := DoLoad(s1, w);
    assert s2.runs == s.runs && s2.approvals == s.approvals && s2.outbox == s.outbox;
    if Terminal(s.runs[r].status) {
      assert JobOf(s2, w) == Acking(e);
    } else {
      assert JobOf(s2, w) == Claiming(e, r, s.now, s.runs[r].status);
    }
  }

  /** The state once the call returned and its result was recorded. */
  predicate CarriedOut(s: State, s': State, w: WorkerId, a: ApprovalId, e: EntryId)
    requires a < |s.approvals|
  {
    var r := s.approvals[a].run;
    && s'.calls == s.calls + [Continued(w, s.approvals[a].tool, s.approvals[a].args, a)]
    && a < |s'.approvals| && s'.approvals[a].status == Consumed && s'.approvals[a].consumedBy == Some(w)
    && a in s'.executions && s'.executions[a] == Succeeded
    && r < |s'.runs| && s'.runs[r].status == Completed
    && e < |s'.stream| && s'.stream[e].acked && JobOf(s', w).Idle?
  }

  lemma ApprovalIsConsumed(s: State, w: WorkerId, a: ApprovalId, e: EntryId, seen: RunStatus)
    requires WF(s) && a < |s.approvals| && JobOf(s, w) == Claimed(e, s.approvals[a].run, seen) && a !in s.executions
    requires s.approvals[a].status == Approved && s.now <= s.approvals[a].expires && NoNewerApproved(s, a)
    ensures
      var r := s.approvals[a].run;
      var s1 := DoStartCall(DoLookApproved(s, w), w);
      && s1.calls == s.calls + [Continued(w, s.approvals[a].tool, s.approvals[a].args, a)]
      && JobOf(s1, w) == InCall(e, r, a) && a in s1.executions
      && |s1.approvals| == |s.approvals| && s1.runs == s.runs && s1.stream == s.stream && s1.outbox == s.outbox
      && s1.approvals[a].status == Consumed && s1.approvals[a].consumedBy == Some(w)
  {
    hide WF, RunOk, EntryOk, JobOk;
    var r := s.approvals[a].run;
    assert Latest(s.approvals, r, Approved) == Some(a);
    var s1 := DoLookApproved(s, w);
    assert JobOf(s1, w) == ToCall(e, r, a) && s1.approvals == Consume(s, a, w).approvals;
  }

  lemma CallIsFinalized(s: State, w: WorkerId, r: RunId, a: ApprovalId, e: EntryId)
    requires WF(s) && JobOf(s, w) == InCall(e, r, a) && a in s.executions
    ensures
      var s1 := DoAck(DoFinalizeOk(DoCallReturns(s, w), w), w);
      && s1.calls == s.calls && s1.approvals == s.approvals && s1.outbox == s.outbox
      && a in s1.executions && s1.executions[a] == Succeeded
      && r < |s1.runs| && s1.runs[r].status == Completed
      && e < |s1.stream| && s1.stream[e].acked && JobOf(s1, w).Idle?
  {
    hide WF, RunOk, EntryOk;
    JobIsOk(s, w);
    var s1 := DoCallReturns(s, w);
    assert JobOf(s1, w) == Returned(e, r, a) && s1.runs == s.runs && s1.executions == s.executions;
    var s2 := DoFinalizeOk(s1, w);
    assert JobOf(s2, w) == Acking(e) && s2.stream == s.stream;
  }

  function Resume(a: ApprovalId, m: MsgId): (acts: seq<Action>) {
    [Api(DecideApproval(a, Approve)), Scheduler(Publish(m, true, true)), Scheduler(CommitPublished)]
  }

  function Take(w: WorkerId, e: EntryId): (acts: seq<Action>) {
    [Worker(w, Read(e)), Worker(w, Load), Worker(w, Claim)]
  }

  function Carry(w: WorkerId): (acts: seq<Action>) {
    [Worker(w, LookApproved), Worker(w, StartCall)]
  }

  function Close(w: WorkerId): (acts: seq<Action>) {
    [Worker(w, CallReturns), Worker(w, FinalizeOk), Worker(w, Ack)]
  }

  lemma TwoSteps(s: State, x: Action, y: Action)
    requires WF(s)
    ensures Exec(s, [x, y]) == Step(Step(s, x), y)
  {
    hide WF, Step;
    assert [] + [x] == [x] && [x] + [y] == [x, y];
    ExecNone(s);
    ExecMore(s, [], x);
    ExecMore(s, [x], y);
  }

  lemma ThreeSteps(s: State, x: Action, y: Action, z: Action)
    requires WF(s)
    ensures Exec(s, [x, y, z]) == Step(Step(Step(s, x), y), z)
  {
    hide WF, Step;
    TwoSteps(s, x, y);
    assert [x, y] + [z] == [x, y, z];
    ExecMore(s, [x, y], z);
  }

  lemma {:induction false} ExecJoin(s: State, first: seq<Action>, second: seq<Action>)
    requires WF(s)
    ensures Exec(s, first + second) == Exec(Exec(s, first), second)
    decreases |second|
  {
    hide WF, Step;
    if second == [] {
      assert first + second == first;
    } else {
      var n := |second| - 1;
      assert (first + second)[..|first + second| - 1] == first + second[..n];
      ExecJoin(s, first, second[..n]);
    }
  }

  lemma ResumeRuns(s: State, a: ApprovalId)
    requires WF(s) && Open(s, a) && s.batch == map[]
    ensures s.approvals[a].run < |s.runs|
    ensures Published(s, Exec(s, Resume(a, |s.outbox|)), a)
  {
    hide WF, DoDecide, DoPublish, DoCommitPublished, Open, Published;
    ThreeSteps(s, Api(DecideApproval(a, Approve)), Scheduler(Publish(|s.outbox|, true, true)),
               Scheduler(CommitPublished));
    ApprovalIsPublished(s, a);
  }

  lemma TakeRuns(s: State, w: WorkerId, r: RunId)
    requires WF(s) && r < |s.runs| && JobOf(s, w).Idle?
    requires s.stream != [] && s.stream[|s.stream| - 1].run == r && !s.stream[|s.stream| - 1].delivered
    ensures Taken(s, Exec(s, Take(w, |s.stream| - 1)), w, r, |s.stream| - 1)
  {
    hide WF, DoRead, DoLoad, DoClaim, Taken;
    ThreeSteps(s, Worker(w, Read(|s.stream| - 1)), Worker(w, Load), Worker(w, Claim));
    EntryIsTaken(s, w, r);
  }

  lemma CallingSteps(s: State, w: WorkerId)
    requires WF(s)
    ensures Step(s, Worker(w, LookApproved)) == DoLookApproved(s, w)
    ensures Step(s, Worker(w, StartCall)) == DoStartCall(s, w)
  {
    hide WF, DoLookApproved, DoStartCall, DoCallReturns, DoFinalizeOk, DoAck;
  }

  lemma ClosingSteps(s: State, w: WorkerId)
    requires WF(s)
    ensures Step(s, Worker(w, CallReturns)) == DoCallReturns(s, w)
    ensures Step(s, Worker(w, FinalizeOk)) == DoFinalizeOk(s, w)
    ensures Step(s, Worker(w, Ack)) == DoAck(s, w)
  {
    hide WF, DoLookApproved, DoStartCall, DoCallReturns, DoFinalizeOk, DoAck;
  }

  lemma CarrySteps(s: State, w: WorkerId)
    requires WF(s)
    ensures Exec(s, Carry(w)) == DoStartCall(DoLookApproved(s, w), w)
  {
    hide WF, Exec, Step, DoLookApproved, DoStartCall;
    TwoSteps(s, Worker(w, LookApproved), Worker(w, StartCall));
    CallingSteps(s, w);
    CallingSteps(DoLookApproved(s, w), w);
  }

  lemma CloseSteps(s: State, w: WorkerId)
    requires WF(s)
    ensures Exec(s, Close(w)) == DoAck(DoFinalizeOk(DoCallReturns(s, w), w), w)
  {
    hide WF, Exec, Step, DoCallReturns, DoFinalizeOk, DoAck;
    ThreeSteps(s, Worker(w, CallReturns), Worker(w, FinalizeOk), Worker(w, Ack));
    var s1 := DoCallReturns(s, w);
    ClosingSteps(s, w);
    ClosingSteps(s1, w);
    ClosingSteps(DoFinalizeOk(s1, w), w);
  }

  lemma CarryRuns(s: State, w: WorkerId, a: ApprovalId, e: EntryId, seen: RunStatus)
    requires WF(s) && a < |s.approvals| && JobOf(s, w) == Claimed(e, s.approvals[a].run, seen) && a !in s.executions
    requires s.approvals[a].status == Approved && s.now <= s.approvals[a].expires && NoNewerApproved(s, a)
    ensures
      var s' := Exec(s, Carry(w) + Close(w));
      CarriedOut(s, s', w, a, e) && s'.outbox == s.outbox
  {
    hide WF, Exec, Carry, Close, DoLookApproved, DoStartCall, DoCallReturns, DoFinalizeOk, DoAck, NoNewerApproved;
    ExecJoin(s, Carry(w), Close(w));
    CarrySteps(s, w);
    ApprovalIsConsumed(s, w, a, e, seen);
    var s1 := Exec(s, Carry(w));
    CloseSteps(s1, w);
    CallIsFinalized(s1, w, s.approvals[a].run, a, e);
  }

  /** Only the look for approved rows of a worker can take an approved row. */
  lemma ApprovedStays(s: State, w: WorkerId, act: WorkerAction, a: ApprovalId)
    requires WF(s) && a < |s.approvals| && s.approvals[a].status == Approved && !act.LookApproved?
    ensures a < |Step(s, Worker(w, act)).approvals| && Step(s, Worker(w, act)).approvals[a].status == Approved
  {
    hide WF, Step;
    Effects.ApprovalsMove(s, Worker(w, act));
    assert Effects.MovedApproval(s, Worker(w, act), a, Step(s, Worker(w, act)));
  }

  lemma LookMisses(s: State, w: WorkerId, a: ApprovalId)
    requires WF(s) && a < |s.approvals| && s.approvals[a].status == Approved
    requires JobOf(s, w).Claimed? && JobOf(s, w).run == s.approvals[a].run ==> !NoNewerApproved(s, a)
    ensures a < |DoLookApproved(s, w).approvals| && DoLookApproved(s, w).approvals[a].status == Approved
  {
    hide WF, RunOk, EntryOk, JobOk;
  }

  lemma CarryMisses(s: State, w: WorkerId, a: ApprovalId)
    requires WF(s) && a < |s.approvals| && s.approvals[a].status == Approved
    requires JobOf(s, w).Claimed? && JobOf(s, w).run == s.approvals[a].run ==> !NoNewerApproved(s, a)
    ensures
      var s' := Exec(s, Carry(w) + Close(w));
      a < |s'.approvals| && s'.approvals[a].status == Approved
  {
    hide WF, Exec, Step, NoNewerApproved, DoLookApproved;
    ExecJoin(s, Carry(w), Close(w));
    CallingSteps(s, w);
    LookMisses(s, w, a);
    TwoSteps(s, Worker(w, LookApproved), Worker(w, StartCall));
    ApprovedStays(DoLookApproved(s, w), w, StartCall, a);
    var s1 := Exec(s, Carry(w));
    ThreeSteps(s1, Worker(w, CallReturns), Worker(w, FinalizeOk), Worker(w, Ack));
    ApprovedStays(s1, w, CallReturns, a);
    var s2 := Step(s1, Worker(w, CallReturns));
    ApprovedStays(s2, w, FinalizeOk, a);
    ApprovedStays(Step(s2, Worker(w, FinalizeOk)), w, Ack, a);
  }

  /** A round in progress is committed first; then comes the shortest way from the decision to the call. */
  function CarryOut(a: ApprovalId, m: MsgId, w: WorkerId, e: EntryId): (acts: seq<Action>) {
    [Scheduler(CommitPublished)] + FromDecision(a, m, w, e)
  }

  function FromDecision(a: ApprovalId, m: MsgId, w: WorkerId, e: EntryId): (acts: seq<Action>) {
    Resume(a, m) + (Take(w, e) + (Carry(w) + Close(w)))
  }

  lemma FromDecisionRuns(s: State, a: ApprovalId, w: WorkerId)
    requires WF(s) && Open(s, a) && s.batch == map[] && JobOf(s, w).Idle? && a !in s.executions
    ensures CarriedOut(s, Exec(s, FromDecision(a, |s.outbox|, w, |s.stream|)), w, a, |s.stream|) <==> Ready(s, a)
  {
    hide WF, Step, Exec, Resume, Take, Carry, Close, Claimable;
    var e, r := |s.stream|, s.approvals[a].run;
    ResumeRuns(s, a);
    var s1 := Exec(s, Resume(a, |s.outbox|));
    TakeRuns(s1, w, r);
    var s2 := Exec(s1, Take(w, e));
    ExecJoin(s, Resume(a, |s.outbox|), Take(w, e) + (Carry(w) + Close(w)));
    ExecJoin(s1, Take(w, e), Carry(w) + Close(w));
    SameNewer(s, s2, a);
    ResumedIsClaimable(s.runs[r], |s.outbox|, s.now);
    if Ready(s, a) {
      CarryRuns(s2, w, a, e, s1.runs[r].status);
    } else {
      CarryMisses(s2, w, a);
    }
  }

  lemma SameNewer(s: State, s': State, a: ApprovalId)
    requires a < |s.approvals| == |s'.approvals| && s'.approvals[a].run == s.approvals[a].run
    requires forall b | a < b < |s.approvals| :: s'.approvals[b] == s.approvals[b]
    ensures NoNewerApproved(s, a) <==> NoNewerApproved(s', a)
  {
  }

  lemma ResumedIsClaimable(row: Run, m: MsgId, now: Time)
    ensures Claimable(row.(status := Queued, cover := m), now)
    ensures row.status == WaitingApproval ==> !Claimable(row, now)
  {
  }

  /**
  The exact condition of the promise that an approved action is carried out.  For every reachable state, every approval
  that can still be given and every idle worker: deciding, publishing, claiming and calling carry the action out, with
  the parked tool and arguments, exactly when the run waits or could be claimed at once, and no newer approval of the
  run was given.
  */
  lemma ApprovedActionIsCarriedOutExactly(acts: seq<Action>, a: ApprovalId, w: WorkerId)
    requires Open(Exec(Init(), acts), a) && JobOf(Exec(Init(), acts), w).Idle?
    ensures
      var s := Exec(Init(), acts);
      CarriedOut(s, Exec(s, CarryOut(a, |s.outbox|, w, |s.stream|)), w, a, |s.stream|) <==> Ready(s, a)
  {
    hide WF, Step, Exec, FromDecision;
    Effects.AtMostOneCall(acts, a);
    var s := Exec(Init(), acts);
    CommittedFirst(s, FromDecision(a, |s.outbox|, w, |s.stream|));
    FromDecisionRuns(DoCommitPublished(s), a, w);
  }

  lemma CommittedFirst(s: State, rest: seq<Action>)
    requires WF(s)
    ensures Exec(s, [Scheduler(CommitPublished)] + rest) == Exec(DoCommitPublished(s), rest)
    ensures |DoCommitPublished(s).outbox| == |s.outbox|
  {
    hide WF;
    ExecJoin(s, [Scheduler(CommitPublished)], rest);
    ExecNone(s);
    assert [] + [Scheduler(CommitPublished)] == [Scheduler(CommitPublished)];
    ExecMore(s, [], Scheduler(CommitPublished));
  }

  // ---------------------------------------------------------------------------------------------
  // What the status of a continued run means
  // ---------------------------------------------------------------------------------------------

  /** COMPLETED is written only over a call that returned, and a record of success only then. */
  predicate TellsTheTruth(j: Job, s': State)
    requires j.Settling? || j.Holds()
  {
    && j.run < |s'.runs| && j.approval in s'.executions
    && (s'.runs[j.run].status == Completed ==> j.approval in s'.returned)
    && (s'.executions[j.approval] == Succeeded ==> j.approval in s'.returned)
    && (j.Returned? ==> s'.runs[j.run].status == Completed && s'.executions[j.approval] == Succeeded)
    && (j.CallFailed? ==> s'.runs[j.run].status == Failed && s'.executions[j.approval] == Ambiguous)
    && (j.Settling? ==> s'.runs[j.run].status == if j.found == Some(Succeeded) then Completed else Failed)
    && (j.Settling? && j.found == Some(InFlight) ==> s'.executions[j.approval] == Ambiguous)
  }

  lemma RecordedTruth(s: State, w: WorkerId)
    requires WF(s) && Effects.EffectInv(s)
    requires JobOf(s, w).Settling? || JobOf(s, w).Returned? || JobOf(s, w).CallFailed?
    ensures
      var j := JobOf(s, w);
      && j.approval in s.executions
      && (j.Settling? ==> j.found.Some?)
      && (j.Returned? || (j.Settling? && j.found == Some(Succeeded)) ==> j.approval in s.returned)
      && (s.executions[j.approval] == Succeeded ==> j.approval in s.returned)
  {
    hide WF, Effects.CallOk, Effects.CountCalls;
    var j := JobOf(s, w);
    assert Effects.HolderOk(s, w, j);
    assert Effects.ApprovalOk(s, j.approval, s.approvals[j.approval]);
  }

  lemma ClosingTellsTheTruth(s: State, w: WorkerId, act: WorkerAction)
    requires WF(s) && Effects.EffectInv(s)
    requires act.Settle? || act.FinalizeOk? || act.FinalizeAmbiguous?
    ensures WorkerStep(s, w, act).runs != s.runs ==>
              (JobOf(s, w).Settling? || JobOf(s, w).Holds()) && TellsTheTruth(JobOf(s, w), WorkerStep(s, w, act))
  {
    hide WF, RunOk, EntryOk, Effects.EffectInv;
    var j := JobOf(s, w);
    JobIsOk(s, w);
    if j.Settling? || j.Returned? || j.CallFailed? {
      RecordedTruth(s, w);
    }
  }

  /**
  Whenever a worker closes a run over a consumed approval, COMPLETED says that the one call returned; a call that
  failed, or whose end nobody recorded, leaves a failed run and an ambiguous record.
  */
  lemma ContinuationTellsTheTruth(acts: seq<Action>, w: WorkerId, act: WorkerAction)
    requires act.Settle? || act.FinalizeOk? || act.FinalizeAmbiguous?
    ensures
      var s := Exec(Init(), acts);
      var s' := WorkerStep(s, w, act);
      s'.runs != s.runs ==> (JobOf(s, w).Settling? || JobOf(s, w).Holds()) && TellsTheTruth(JobOf(s, w), s')
  {
    hide WF, Exec, WorkerStep, TellsTheTruth, Effects.EffectInv;
    assert acts[..|acts|] == acts;
    Effects.InvAt(acts, |acts|);
    ClosingTellsTheTruth(Exec(Init(), acts), w, act);
  }
}
