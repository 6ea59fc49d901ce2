/**
A promise the protocol does not keep: an approved action is not always carried out.  An approval given while its run is
executing under a live lease does not send the run anywhere; the outbox row it adds finds the run executing, and the
run then starts to wait for a decision that was already taken.  And of two approvals of one run the newer one wins.
*/
module LostApproval {
  import opened Types
  import opened Policy
  import opened Protocol
  import opened Frames
  import Effects
  import Promises

  // ---------------------------------------------------------------------------------------------
  // For ever
  // ---------------------------------------------------------------------------------------------

  /** Run `r` waits, nobody works on it, no decision about it is open and recovery has not seen it. */
  predicate Dormant(s: State, r: RunId) {
    && r < |s.runs|
    && s.runs[r].status == WaitingApproval
    && r !in s.scan
    && (forall w | w in s.jobs :: s.jobs[w].Busy() ==> s.jobs[w].run != r)
    && (forall a | 0 <= a < |s.approvals| :: s.approvals[a].run == r ==> s.approvals[a].status != Pending)
  }

  lemma NobodyStarts(s: State, act: Action, w: WorkerId, r: RunId)
    requires WF(s) && Dormant(s, r) && JobOf(Step(s, act), w).Busy()
    ensures JobOf(Step(s, act), w).run != r
  {
    hide WF, WorkerStep, RunOk, EntryOk, JobOk;
    match act
    case Worker(v, wact) =>
      OthersKeepJobs(s, v, wact);
      if v == w { OwnJob(s, w, wact, r); }
    case _ =>
  }

  lemma OwnJob(s: State, w: WorkerId, act: WorkerAction, r: RunId)
    requires WF(s) && Dormant(s, r) && JobOf(WorkerStep(s, w, act), w).Busy()
    ensures JobOf(WorkerStep(s, w, act), w).run != r
  {
    hide WF, RunOk, EntryOk, JobOk, Terminal, MayFinish, Verdict0, Latest;
    if act.Claim? { JobIsOk(s, w); }
  }

  lemma ScanNeverSees(s: State, act: Action, r: RunId)
    requires WF(s) && Dormant(s, r)
    ensures r !in Step(s, act).scan
  {
    hide WF, WorkerStep, RunOk, JobOk, EntryOk, StuckRow;
    match act
    case Worker(w, a) => WorkerKeepsTables(s, w, a);
    case _ =>
  }

  lemma StaysDormant(s: State, act: Action, r: RunId)
    requires WF(s) && Dormant(s, r)
    ensures Dormant(Step(s, act), r)
  {
    hide WF, Step;
    var s' := Step(s, act);
    forall w | w in s'.jobs && s'.jobs[w].Busy() ensures s'.jobs[w].run != r { NobodyStarts(s, act, w, r); }
    ScanNeverSees(s, act, r);
    Effects.ApprovalsMove(s, act);
    forall a | 0 <= a < |s'.approvals| && s'.approvals[a].run == r ensures s'.approvals[a].status != Pending {
      if a < |s.approvals| { assert Effects.MovedApproval(s, act, a, s'); } else { ParksElsewhere(s, act, r); }
    }
    RunsMove(s, act);
    assert MovedRun(s, act, r, s');
    if act.Worker? { JobIsOk(s, act.worker); }
    if act.Api? { DecidesElsewhere(s, act.api, r); }
  }

  lemma ParksElsewhere(s: State, act: Action, r: RunId)
    requires WF(s) && Dormant(s, r) && Effects.Parks(s, act, |s.approvals|, Step(s, act))
    ensures |Step(s, act).approvals| == |s.approvals| + 1 && Step(s, act).approvals[|s.approvals|].run != r
  {
    hide WF, Step;
  }

  lemma DecidesElsewhere(s: State, act: ApiAction, r: RunId)
    requires WF(s) && Dormant(s, r)
    ensures r < |ApiStep(s, act).runs| && ApiStep(s, act).runs[r] == s.runs[r]
    ensures ApiStep(s, act) == Step(s, Api(act))
  {
    hide WF, RunOk, JobOk, EntryOk;
    match act
    case CreateRun(_) =>
    case DecideApproval(a, _) => if a < |s.approvals| { ApprovalRun(s, a); }
  }

  /** A dormant run waits for ever, and none of its approvals is ever executed. */
  lemma {:induction false} DormantForEver(s: State, acts: seq<Action>, r: RunId, a: ApprovalId)
    requires WF(s) && Effects.EffectInv(s) && Dormant(s, r)
    requires a < |s.approvals| && s.approvals[a].run == r && s.approvals[a].status == Approved
    ensures Dormant(Exec(s, acts), r)
    ensures Effects.EffectInv(Exec(s, acts))
    ensures var s' := Exec(s, acts); a < |s'.approvals| && s'.approvals[a] == s.approvals[a]
    ensures Effects.CountCalls(Exec(s, acts).calls, a) == 0
    decreases |acts|
  {
    hide WF, Step, Effects.EffectInv;
    if acts != [] {
      var before := acts[..|acts| - 1];
      DormantForEver(s, before, r, a);
      var t := Exec(s, before);
      StaysDormant(t, acts[|acts| - 1], r);
      Effects.StepKeeps(t, acts[|acts| - 1]);
      Effects.ApprovalsMove(t, acts[|acts| - 1]);
      assert Effects.MovedApproval(t, acts[|acts| - 1], a, Step(t, acts[|acts| - 1]));
      if acts[|acts| - 1].Worker? { hide Effects.CountCalls; JobIsOk(t, acts[|acts| - 1].worker); }
    }
    NotCalled(Exec(s, acts), a);
  }

  lemma NotCalled(s: State, a: ApprovalId)
    requires Effects.EffectInv(s) && a < |s.approvals| && s.approvals[a].status == Approved
    ensures Effects.CountCalls(s.calls, a) == 0
  {
    assert Effects.ApprovalOk(s, a, s.approvals[a]);
  }

  // ---------------------------------------------------------------------------------------------
  // A schedule that loses an approval
  // ---------------------------------------------------------------------------------------------

  const WRITE := "technocore_signed_write"

  const CLAIMED_ROW := Run(Executing, Some(1), Some(0), Some(LEASE), 0, 0, 0, 0)

  ghost predicate Reachable(s: State) {
    WF(s) && exists acts :: Exec(Init(), acts) == s
  }

  lemma Reach(s: State, act: Action)
    requires Reachable(s)
    ensures Reachable(Step(s, act))
  {
    hide WF, Step;
    var acts :| Exec(Init(), acts) == s;
    ExecMore(Init(), acts, act);
  }

  lemma NoKeys(s: State, key: OutboxKey)
    requires s.outbox == []
    ensures !KeyUsed(s, key)
  {
  }

  /** A run was created and published. */
  function Published(): (s: State)
    ensures WF(s)
  {
    State(0, [Run(Queued, None, None, None, 0, 0, 0, 0)], [], map[], [OutboxRow(0, TaskKey(0), true, 1, None, 0)],
          [Entry(0, Some(0), 0, false, 0, false, false)], map[], map[], map[], 0, [], [], {})
  }

  lemma Publishes()
    ensures Reachable(Published())
  {
    hide WF, Exec, KeyUsed;
    var s := Init();
    assert Reachable(s) by { assert Exec(s, []) == s by { ExecNone(s); } }
    NoKeys(s, TaskKey(0));
    var s1 := Step(s, Api(CreateRun(FromTask(0))));
    Reach(s, Api(CreateRun(FromTask(0))));
    var s2 := Step(s1, Scheduler(Publish(0, true, true)));
    Reach(s1, Scheduler(Publish(0, true, true)));
    var s3 := Step(s2, Scheduler(CommitPublished));
    Reach(s2, Scheduler(CommitPublished));
    assert s3 == Published();
  }

  /** Worker 1 claimed the run and its coordinator is at work. */
  function Started(): (s: State)
    ensures WF(s)
  {
    Published().(runs := [CLAIMED_ROW], stream := [Entry(0, Some(0), 0, true, 0, false, true)],
                 jobs := map[1 := Running(0, 0, Queued)])
  }

  lemma Starts()
    ensures Reachable(Started())
  {
    hide WF, Exec;
    Publishes();
    var s1 := Step(Published(), Worker(1, Read(0)));
    Reach(Published(), Worker(1, Read(0)));
    assert s1.jobs == map[1 := Got(0)];
    var s2 := Step(s1, Worker(1, Load));
    Reach(s1, Worker(1, Load));
    assert s2.jobs == map[1 := Claiming(0, 0, 0, Queued)];
    var s3 := Step(s2, Worker(1, Claim));
    Reach(s2, Worker(1, Claim));
    assert s3.jobs == map[1 := Claimed(0, 0, Queued)];
    var s4 := Step(s3, Worker(1, LookApproved));
    Reach(s3, Worker(1, LookApproved));
    assert s4.jobs == map[1 := NoneApproved(0, 0, Queued)];
    var s5 := Step(s4, Worker(1, LookConsumed));
    Reach(s4, Worker(1, LookConsumed));
    assert s5 == Started();
  }

  /** The coordinator parked a write, the operator approved it at once, and the new outbox row was published. */
  function ApprovedEarly(): (s: State)
    ensures WF(s)
  {
    Started().(
      approvals := [Approval(0, WRITE, "{}", Approved, APPROVAL_TTL, Some(0), None, None)],
      outbox := Started().outbox + [OutboxRow(0, ApproveKey(0), true, 1, None, 0)],
      stream := Started().stream + [Entry(0, Some(1), 0, false, 0, false, false)],
      jobs := map[1 := Parked(0, 0, Queued)])
  }

  lemma ApprovesEarly()
    ensures Reachable(ApprovedEarly())
  {
    hide WF, Exec;
    Starts();
    var s1 := Step(Started(), Worker(1, Park(WRITE, "{}")));
    Reach(Started(), Worker(1, Park(WRITE, "{}")));
    assert s1.jobs == map[1 := Parked(0, 0, Queued)];
    var s2 := Step(s1, Api(DecideApproval(0, Approve)));
    Reach(s1, Api(DecideApproval(0, Approve)));
    var s3 := Step(s2, Scheduler(Publish(1, true, true)));
    Reach(s2, Scheduler(Publish(1, true, true)));
    var s4 := Step(s3, Scheduler(CommitPublished));
    Reach(s3, Scheduler(CommitPublished));
    assert s4.outbox == ApprovedEarly().outbox;
    assert s4 == ApprovedEarly();
  }

  /** Worker 2 finds the run executing and drops the entry; then worker 1 writes that the run waits. */
  function Lost(): (s: State)
    ensures WF(s)
  {
    ApprovedEarly().(
      runs := [CLAIMED_ROW.(status := WaitingApproval)],
      stream := [Entry(0, Some(0), 0, true, 0, true, true), Entry(0, Some(1), 0, true, 0, true, true)],
      jobs := map[1 := Idle, 2 := Idle])
  }

  function Dropped(): (s: State)
    ensures WF(s)
  {
    ApprovedEarly().(
      stream := [Entry(0, Some(0), 0, true, 0, false, true), Entry(0, Some(1), 0, true, 0, true, true)],
      jobs := map[1 := Parked(0, 0, Queued), 2 := Idle])
  }

  lemma Drops()
    ensures Reachable(Dropped())
  {
    hide WF, Exec;
    ApprovesEarly();
    var first := Entry(0, Some(0), 0, true, 0, false, true);
    var read := Entry(0, Some(1), 0, true, 0, false, false);
    var s0 := ApprovedEarly();
    var s1 := s0.(stream := [first, read], jobs := map[1 := Parked(0, 0, Queued), 2 := Got(1)]);
    assert Step(s0, Worker(2, Read(1))) == s1;
    Reach(s0, Worker(2, Read(1)));
    var s2 := s1.(jobs := map[1 := Parked(0, 0, Queued), 2 := Claiming(1, 0, 0, Executing)]);
    assert Step(s1, Worker(2, Load)) == s2;
    Reach(s1, Worker(2, Load));
    DropsAfterLoad(s2, first, read);
  }

  lemma DropsAfterLoad(s: State, first: Entry, read: Entry)
    requires Reachable(s) && first == Entry(0, Some(0), 0, true, 0, false, true)
    requires read == Entry(0, Some(1), 0, true, 0, false, false)
    requires s == ApprovedEarly().(stream := [first, read],
                                   jobs := map[1 := Parked(0, 0, Queued), 2 := Claiming(1, 0, 0, Executing)])
    ensures Reachable(Dropped())
  {
    hide WF, Exec;
    var s1 := s.(stream := [first, read.(passed := true)], jobs := map[1 := Parked(0, 0, Queued), 2 := Acking(1)]);
    assert Step(s, Worker(2, Claim)) == s1;
    Reach(s, Worker(2, Claim));
    DropsAfterClaim(s1, first, read.(passed := true));
  }

  lemma DropsAfterClaim(s: State, first: Entry, read: Entry)
    requires Reachable(s) && first == Entry(0, Some(0), 0, true, 0, false, true)
    requires read == Entry(0, Some(1), 0, true, 0, false, true)
    requires s == ApprovedEarly().(stream := [first, read], jobs := map[1 := Parked(0, 0, Queued), 2 := Acking(1)])
    ensures Reachable(Dropped())
  {
    hide WF, Exec;
    assert Step(s, Worker(2, Ack)) == Dropped();
    Reach(s, Worker(2, Ack));
  }

  lemma Loses()
    ensures Reachable(Lost())
  {
    hide WF, Exec;
    Drops();
    var s1 := Step(Dropped(), Worker(1, Finish(WaitingApproval, true)));
    Reach(Dropped(), Worker(1, Finish(WaitingApproval, true)));
    assert s1.jobs == map[1 := Acking(0), 2 := Idle];
    var s2 := Step(s1, Worker(1, Ack));
    Reach(s1, Worker(1, Ack));
    assert s2 == Lost();
  }

  /**
  Not every approved action runs: there is a schedule after which approval 0 is approved in time and every outbox row
  and stream entry is spent, and whatever follows, its run waits for ever and the approval is never executed.
  */
  lemma ApprovalCanBeLost(later: seq<Action>)
    ensures exists acts ::
              && Exec(Init(), acts) == Lost()
              && Lost().approvals[0].status == Approved
              && 0 < |Exec(Lost(), later).runs| && Exec(Lost(), later).runs[0].status == WaitingApproval
              && Effects.CountCalls(Exec(Lost(), later).calls, 0) == 0
  {
    hide WF, Exec, Effects.CountCalls;
    Loses();
    var acts :| Exec(Init(), acts) == Lost();
    assert Effects.EffectInv(Lost()) by {
      hide Effects.EffectInv;
      assert acts[..|acts|] == acts;
      Effects.InvAt(acts, |acts|);
    }
    DormantForEver(Lost(), later, 0, 0);
  }

  // ---------------------------------------------------------------------------------------------
  // Two approvals of one run
  // ---------------------------------------------------------------------------------------------

  const LATER: Time := 30_001

  function Parks(args: Json, now: Time): (ap: Approval) {
    Approval(0, WRITE, args, Pending, now + APPROVAL_TTL, None, None, None)
  }

  const RECLAIMED := Entry(0, Some(0), 0, true, LATER, false, true)
  const SECOND_CLAIM := Run(Executing, Some(2), Some(LATER), Some(LATER + LEASE), 0, 0, 0, 0)

  /** Worker 1 parked an action and crashed; the lease ran out; worker 2 took the entry over. */
  function TakenOver(): (s: State)
    ensures WF(s)
  {
    Started().(now := LATER, approvals := [Parks("{}", 0)], stream := [RECLAIMED], jobs := map[1 := Idle, 2 := Got(0)])
  }

  lemma TakesOver()
    ensures Reachable(TakenOver())
  {
    hide WF, Exec;
    Starts();
    var s1 := Step(Started(), Worker(1, Park(WRITE, "{}")));
    Reach(Started(), Worker(1, Park(WRITE, "{}")));
    assert s1.jobs == map[1 := Parked(0, 0, Queued)];
    var s2 := Step(s1, Worker(1, Crash));
    Reach(s1, Worker(1, Crash));
    assert s2.jobs == map[1 := Idle];
    var s3 := Step(s2, Tick(LATER));
    Reach(s2, Tick(LATER));
    var s4 := Step(s3, Worker(2, Reclaim(0)));
    Reach(s3, Worker(2, Reclaim(0)));
    assert s4 == TakenOver();
  }

  /** Worker 2 claimed the run, found no approved action and runs the coordinator again. */
  function Restarted(): (s: State)
    ensures WF(s)
  {
    TakenOver().(runs := [SECOND_CLAIM], jobs := map[1 := Idle, 2 := Running(0, 0, Executing)])
  }

  lemma Restarts()
    ensures Reachable(Restarted())
  {
    hide WF, Exec;
    TakesOver();
    var s0 := TakenOver();
    var s1 := s0.(jobs := map[1 := Idle, 2 := Claiming(0, 0, LATER, Executing)]);
    assert Step(s0, Worker(2, Load)) == s1;
    Reach(s0, Worker(2, Load));
    var s2 := s1.(runs := [SECOND_CLAIM], jobs := map[1 := Idle, 2 := Claimed(0, 0, Executing)]);
    assert Step(s1, Worker(2, Claim)) == s2;
    Reach(s1, Worker(2, Claim));
    FindsNothing(s2);
  }

  lemma FindsNothing(s: State)
    requires Reachable(s)
    requires s == TakenOver().(runs := [SECOND_CLAIM], jobs := map[1 := Idle, 2 := Claimed(0, 0, Executing)])
    ensures Reachable(Restarted())
  {
    hide WF, Exec;
    var s1 := s.(jobs := map[1 := Idle, 2 := NoneApproved(0, 0, Executing)]);
    assert Step(s, Worker(2, LookApproved)) == s1;
    Reach(s, Worker(2, LookApproved));
    assert Step(s1, Worker(2, LookConsumed)) == Restarted();
    Reach(s1, Worker(2, LookConsumed));
  }

  /** Worker 2 parked a second action, which was approved at once; then it wrote that the run waits. */
  function TwoParked(): (s: State)
    ensures WF(s)
  {
    Restarted().(
      runs := [SECOND_CLAIM.(status := WaitingApproval)],
      approvals := [Parks("{}", 0), Parks("[]", LATER).(status := Approved, decidedAt := Some(LATER))],
      outbox := Started().outbox + [OutboxRow(0, ApproveKey(1), false, 0, None, LATER)],
      stream := [RECLAIMED.(acked := true)],
      jobs := map[1 := Idle, 2 := Idle])
  }

  lemma ParksTwo()
    ensures Reachable(TwoParked())
  {
    hide WF, Exec;
    Restarts();
    var s0 := Restarted();
    var s1 := s0.(approvals := [Parks("{}", 0), Parks("[]", LATER)],
                  jobs := map[1 := Idle, 2 := Parked(0, 0, Executing)]);
    assert Step(s0, Worker(2, Park(WRITE, "[]"))) == s1;
    Reach(s0, Worker(2, Park(WRITE, "[]")));
    var s2 := s1.(approvals := TwoParked().approvals, outbox := TwoParked().outbox);
    assert Step(s1, Api(DecideApproval(1, Approve))) == s2;
    Reach(s1, Api(DecideApproval(1, Approve)));
    Waits(s2);
  }

  lemma Waits(s: State)
    requires Reachable(s)
    requires s == Restarted().(approvals := TwoParked().approvals, outbox := TwoParked().outbox,
                               jobs := map[1 := Idle, 2 := Parked(0, 0, Executing)])
    ensures Reachable(TwoParked())
  {
    hide WF, Exec;
    var s1 := s.(runs := TwoParked().runs, jobs := map[1 := Idle, 2 := Acking(0)]);
    assert Step(s, Worker(2, Finish(WaitingApproval, true))) == s1;
    Reach(s, Worker(2, Finish(WaitingApproval, true)));
    Acknowledges(s1);
  }

  lemma Acknowledges(s: State)
    requires Reachable(s) && s == TwoParked().(stream := [RECLAIMED], jobs := map[1 := Idle, 2 := Acking(0)])
    ensures Reachable(TwoParked())
  {
    hide WF, Exec;
    assert Step(s, Worker(2, Ack)) == TwoParked();
    Reach(s, Worker(2, Ack));
  }

  /**
  That the run waits is not enough: a newer approved action of the same run is carried out in place of the one just
  approved, and completes the run.
  */
  lemma NewerApprovalWins()
    ensures exists acts :: Exec(Init(), acts) == TwoParked()
    ensures
      var s := TwoParked();
      var s' := Exec(s, Promises.FromDecision(0, 2, 3, 1));
      && Promises.Open(s, 0) && JobOf(s, 3).Idle? && s.batch == map[] && s.runs[0].status == WaitingApproval
      && s'.calls == [Continued(3, WRITE, "[]", 1)]
      && 0 < |s'.runs| && s'.runs[0].status == Completed
      && 0 < |s'.approvals| && s'.approvals[0].status == Approved
  {
    hide WF, Exec, Promises.Resume, Promises.Take, Promises.Carry, Promises.Close;
    ParksTwo();
    var s := TwoParked();
    Promises.ResumeRuns(s, 0);
    var s1 := Exec(s, Promises.Resume(0, 2));
    Promises.TakeRuns(s1, 3, 0);
    var s2 := Exec(s1, Promises.Take(3, 1));
    Promises.ExecJoin(s, Promises.Resume(0, 2), Promises.Take(3, 1) + (Promises.Carry(3) + Promises.Close(3)));
    Promises.ExecJoin(s1, Promises.Take(3, 1), Promises.Carry(3) + Promises.Close(3));
    Promises.CarryRuns(s2, 3, 1, 1, Queued);
    Promises.CarryMisses(s2, 3, 0);
  }
}
