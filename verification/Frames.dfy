/** What a step leaves alone. */
module Frames {
  import opened Types
  import opened Policy
  import opened Protocol

  lemma JobIsOk(s: State, w: WorkerId)
    requires WF(s)
    ensures JobOk(s, JobOf(s, w))
  {
  }

  /** Only the acting worker changes its job. */
  predicate OnlyJobOf(s: State, w: WorkerId, s': State) {
    s'.jobs == s.jobs || (w in s'.jobs && s'.jobs == s.jobs[w := s'.jobs[w]])
  }

  lemma LooksKeepOthers(s: State, w: WorkerId)
    requires WF(s)
    ensures OnlyJobOf(s, w, DoLookApproved(s, w))
    ensures OnlyJobOf(s, w, DoLookConsumed(s, w))
    ensures OnlyJobOf(s, w, DoSettle(s, w))
  {
    hide WF, JobOk, EntryOk, RunOk, Latest;
  }

  lemma ClaimsKeepOthers(s: State, w: WorkerId)
    requires WF(s)
    ensures OnlyJobOf(s, w, DoLoad(s, w))
    ensures OnlyJobOf(s, w, DoReadClock(s, w))
    ensures OnlyJobOf(s, w, DoClaim(s, w))
  {
    hide WF, JobOk, EntryOk, RunOk, Claimable, Terminal;
  }

  lemma CallsKeepOthers(s: State, w: WorkerId)
    requires WF(s)
    ensures OnlyJobOf(s, w, DoStartCall(s, w))
    ensures OnlyJobOf(s, w, DoCallReturns(s, w))
    ensures OnlyJobOf(s, w, DoCallRaises(s, w))
    ensures OnlyJobOf(s, w, DoFinalizeOk(s, w))
    ensures OnlyJobOf(s, w, DoFinalizeRaises(s, w))
    ensures OnlyJobOf(s, w, DoFinalizeAmbiguous(s, w))
  {
    hide WF, JobOk, EntryOk, RunOk;
  }

  lemma OthersKeepJobs(s: State, w: WorkerId, act: WorkerAction)
    requires WF(s)
    ensures OnlyJobOf(s, w, WorkerStep(s, w, act))
  {
    hide WF, JobOk, EntryOk, RunOk, Verdict0, Claimable, MayFinish, Terminal;
    match act
    case Read(e) => assert OnlyJobOf(s, w, DoRead(s, w, e));
    case Reclaim(e) => assert OnlyJobOf(s, w, DoReclaim(s, w, e));
    case Load => ClaimsKeepOthers(s, w);
    case ReadClock => ClaimsKeepOthers(s, w);
    case Claim => ClaimsKeepOthers(s, w);
    case CallAllowed(tool, args) => assert OnlyJobOf(s, w, DoCallAllowed(s, w, tool, args));
    case Park(tool, args) => assert OnlyJobOf(s, w, DoPark(s, w, tool, args));
    case Beat(at) => assert OnlyJobOf(s, w, DoBeat(s, w, at));
    case Finish(st, written) => assert OnlyJobOf(s, w, DoFinish(s, w, st, written));
    case Ack => assert OnlyJobOf(s, w, DoAck(s, w));
    case Crash =>
    case LookApproved => LooksKeepOthers(s, w);
    case LookConsumed => LooksKeepOthers(s, w);
    case Settle => LooksKeepOthers(s, w);
    case _ => CallsKeepOthers(s, w);
  }

  // ---------------------------------------------------------------------------------------------
  // Run rows
  // ---------------------------------------------------------------------------------------------

  /** An approval sends the waiting run back to the queue, with a new outbox row. */
  predicate Resumes(s: State, act: Action, r: RunId, s': State)
    requires r < |s.runs| <= |s'.runs|
  {
    && act.Api? && act.api.DecideApproval? && act.api.ruling == Approve
    && s.runs[r].status == WaitingApproval
    && s'.runs[r] == s.runs[r].(status := Queued, cover := |s.outbox|)
    && s'.outbox == s.outbox + [NewRow(r, ApproveKey(act.api.approval), None, s.now)]
  }

  predicate Declines(s: State, act: Action, r: RunId, s': State)
    requires r < |s.runs| <= |s'.runs|
  {
    && act.Api? && act.api.DecideApproval? && act.api.ruling == Reject
    && s.runs[r].status == WaitingApproval
    && s'.runs[r] == s.runs[r].(status := Failed)
  }

  predicate Recovers(s: State, act: Action, r: RunId, s': State)
    requires r < |s.runs| <= |s'.runs|
  {
    && act.Scheduler? && act.sched.Recover? && act.sched.run == r
    && r in s.scan && StuckRow(s.scan[r], s.scanAt, s.now)
    && s'.runs[r] == s.runs[r].(status := Failed, heartbeat := Some(s.now), retryCount := s.scan[r].retryCount + 1)
  }

  predicate ClaimsRun(s: State, act: Action, r: RunId, s': State)
    requires r < |s.runs| <= |s'.runs|
  {
    && act.Worker? && act.act.Claim?
    && var j := JobOf(s, act.worker);
    && j.Claiming? && j.run == r && Claimable(s.runs[r], j.at)
    && s'.runs[r] == s.runs[r].(status := Executing, worker := Some(act.worker), heartbeat := Some(j.at),
                                lease := Some(j.at + LEASE))
    && JobOf(s', act.worker) == Claimed(j.entry, r, j.seen)
  }

  predicate BeatsRun(s: State, act: Action, r: RunId, s': State)
    requires r < |s.runs| <= |s'.runs|
  {
    && act.Worker? && act.act.Beat?
    && var j := JobOf(s, act.worker);
    && j.Coordinates() && j.run == r && s.runs[r].worker == Some(act.worker)
    && act.act.at <= s.now
    && s'.runs[r] == s.runs[r].(heartbeat := Some(act.act.at), lease := Some(act.act.at + LEASE))
  }

  predicate FinishesRun(s: State, act: Action, r: RunId, s': State)
    requires r < |s.runs| <= |s'.runs|
  {
    && act.Worker? && act.act.Finish?
    && var j := JobOf(s, act.worker);
    && j.Coordinates() && j.run == r && MayFinish(j, act.act.status)
    && s'.runs[r] == s.runs[r].(heartbeat := Some(s.now),
                                status := if act.act.written then act.act.status else s.runs[r].status)
    && !JobOf(s', act.worker).Busy()
  }

  predicate ClosesRun(s: State, act: Action, r: RunId, s': State)
    requires r < |s.runs| <= |s'.runs|
  {
    && act.Worker?
    && var j := JobOf(s, act.worker);
    && (j.Settling? || j.Returned? || j.CallFailed?) && j.run == r
    && s'.runs[r].status in {Completed, Failed}
    && s'.runs[r] == s.runs[r].(status := s'.runs[r].status)
    && !JobOf(s', act.worker).Busy()
  }

  predicate MovedRun(s: State, act: Action, r: RunId, s': State)
    requires r < |s.runs| <= |s'.runs|
  {
    || s'.runs[r] == s.runs[r]
    || Resumes(s, act, r, s')
    || Declines(s, act, r, s')
    || Recovers(s, act, r, s')
    || ClaimsRun(s, act, r, s')
    || BeatsRun(s, act, r, s')
    || FinishesRun(s, act, r, s')
    || ClosesRun(s, act, r, s')
  }

  /** A new run is queued and committed together with its outbox row. */
  predicate Creates(s: State, act: Action, s': State) {
    && |s'.runs| == |s.runs| + 1 && |s'.outbox| == |s.outbox| + 1
    && s'.outbox[..|s.outbox|] == s.outbox
    && var n := s'.runs[|s.runs|];
    && n == Run(Queued, None, None, None, n.retryCount, n.root, n.retryCount, |s.outbox|)
    && s'.outbox[|s.outbox|].run == |s.runs| && !s'.outbox[|s.outbox|].processed
    && (act.Api? && act.api.CreateRun? ==> n.root == |s.runs|)
    && (!(act.Api? && act.api.CreateRun?) ==>
          act.Scheduler? && act.sched.Recover? && act.sched.run in s.scan &&
          n.root == s.scan[act.sched.run].root && n.retryCount == s.scan[act.sched.run].retryCount + 1 <= MAX_RETRIES
          && act.sched.run < |s.runs| && Recovers(s, act, act.sched.run, s'))
  }

  predicate RunsMoved(s: State, act: Action, s': State) {
    && |s.runs| <= |s'.runs|
    && (forall r | 0 <= r < |s.runs| :: MovedRun(s, act, r, s'))
    && (|s.runs| < |s'.runs| ==> Creates(s, act, s'))
  }

  lemma DecisionMovesRuns(s: State, a: ApprovalId, ruling: Ruling)
    requires WF(s)
    ensures RunsMoved(s, Api(DecideApproval(a, ruling)), DoDecide(s, a, ruling))
  {
    hide WF, JobOk, EntryOk, RunOk, Creates;
    if a < |s.approvals| { ApprovalRun(s, a); }
  }

  lemma ApiMovesRuns(s: State, act: ApiAction)
    requires WF(s)
    ensures RunsMoved(s, Api(act), ApiStep(s, act))
  {
    hide WF, JobOk, EntryOk, RunOk, DoDecide, KeyUsed;
    match act
    case CreateRun(_) =>
    case DecideApproval(a, ruling) => DecisionMovesRuns(s, a, ruling);
  }

  lemma ApprovalRun(s: State, a: ApprovalId)
    requires WF(s) && a < |s.approvals|
    ensures s.approvals[a].run < |s.runs|
  {
  }

  lemma ScanIsOk(s: State, r: RunId)
    requires WF(s) && r in s.scan
    ensures r < |s.runs| && s.scan[r].root < |s.runs|
  {
  }

  lemma SchedulerMovesRuns(s: State, act: SchedulerAction)
    requires WF(s)
    ensures RunsMoved(s, Scheduler(act), SchedulerStep(s, act))
  {
    hide WF, JobOk, EntryOk, RunOk;
    if act.Recover? && act.run in s.scan {
      ScanIsOk(s, act.run);
    }
  }

  lemma ContinuationMovesRuns(s: State, w: WorkerId, act: WorkerAction)
    requires WF(s) && (act.Settle? || act.FinalizeOk? || act.FinalizeAmbiguous?)
    ensures RunsMoved(s, Worker(w, act), WorkerStep(s, w, act))
  {
    hide WF, EntryOk, RunOk;
    JobIsOk(s, w);
  }

  lemma WorkerMovesRuns(s: State, w: WorkerId, act: WorkerAction)
    requires WF(s)
    ensures RunsMoved(s, Worker(w, act), WorkerStep(s, w, act))
  {
    hide WF, EntryOk, RunOk, Verdict0;
    JobIsOk(s, w);
    match act
    case Settle => ContinuationMovesRuns(s, w, act);
    case FinalizeOk => ContinuationMovesRuns(s, w, act);
    case FinalizeAmbiguous => ContinuationMovesRuns(s, w, act);
    case Claim =>
    case Beat(_) =>
    case Finish(_, _) =>
    case _ => assert WorkerStep(s, w, act).runs == s.runs;
  }

  lemma RunsMove(s: State, act: Action)
    requires WF(s)
    ensures RunsMoved(s, act, Step(s, act))
  {
    hide WF, ApiStep, SchedulerStep, WorkerStep;
    match act
    case Api(a) => ApiMovesRuns(s, a);
    case Scheduler(a) => SchedulerMovesRuns(s, a);
    case Worker(w, a) => WorkerMovesRuns(s, w, a);
    case Tick(_) =>
    case ForeignAdd(_) =>
  }

  // ---------------------------------------------------------------------------------------------
  // Stream entries
  // ---------------------------------------------------------------------------------------------

  predicate MovedEntry(s: State, act: Action, e: EntryId, s': State)
    requires e < |s.stream| <= |s'.stream|
  {
    var o, n := s.stream[e], s'.stream[e];
    && n.run == o.run && n.msg == o.msg && n.addedAt == o.addedAt
    && (n.passed == o.passed
        || (n.passed && act.Worker? && act.act.Load? && JobOf(s, act.worker) == Got(e) &&
            o.run < |s.runs| && Terminal(s.runs[o.run].status))
        || (n.passed && act.Worker? && act.act.Claim? && JobOf(s, act.worker).Claiming? &&
            JobOf(s, act.worker).entry == e))
    && (n.acked == o.acked || (act.Worker? && act.act.Ack? && JobOf(s, act.worker) == Acking(e)))
  }

  predicate StreamMoved(s: State, act: Action, s': State) {
    && |s.stream| <= |s'.stream|
    && (forall e | 0 <= e < |s.stream| :: MovedEntry(s, act, e, s'))
    && (forall e | |s.stream| <= e < |s'.stream| :: !s'.stream[e].passed && !s'.stream[e].acked)
  }

  lemma ClaimPointMovesStream(s: State, w: WorkerId, act: WorkerAction)
    requires WF(s) && (act.Load? || act.Claim?)
    ensures StreamMoved(s, Worker(w, act), WorkerStep(s, w, act))
  {
    hide WF, RunOk, Terminal, Claimable;
    JobIsOk(s, w);
    if JobOf(s, w).Got? { EntryIsOk(s, w); }
  }

  lemma WorkerMovesStream(s: State, w: WorkerId, act: WorkerAction)
    requires WF(s)
    ensures StreamMoved(s, Worker(w, act), WorkerStep(s, w, act))
  {
    hide WF, RunOk, Verdict0, Terminal, MayFinish, Claimable;
    JobIsOk(s, w);
    match act
    case Read(_) =>
    case Reclaim(_) =>
    case Load => ClaimPointMovesStream(s, w, act);
    case Claim => ClaimPointMovesStream(s, w, act);
    case Ack =>
    case _ => assert WorkerStep(s, w, act).stream == s.stream;
  }

  lemma EntryIsOk(s: State, w: WorkerId)
    requires WF(s) && JobOf(s, w).Got?
    ensures JobOf(s, w).entry < |s.stream| && EntryOk(s, s.stream[JobOf(s, w).entry])
  {
  }

  lemma StreamMoves(s: State, act: Action)
    requires WF(s)
    ensures StreamMoved(s, act, Step(s, act))
  {
    hide WF, WorkerStep, RunOk, JobOk, EntryOk, KeyUsed, StuckRow, Publishable;
    match act
    case Worker(w, a) => WorkerMovesStream(s, w, a);
    case Api(a) => assert Step(s, act).stream == s.stream;
    case _ =>
  }

  // ---------------------------------------------------------------------------------------------
  // Outbox rows and the publishing round
  // ---------------------------------------------------------------------------------------------

  predicate HasEntry(stream: seq<Entry>, m: MsgId) {
    exists e :: 0 <= e < |stream| && stream[e].msg == Some(m)
  }

  /** The publishing round says that row `m` went out. */
  predicate Sent(s: State, m: MsgId) {
    m in s.batch && s.batch[m]
  }

  predicate MovedRow(s: State, m: MsgId, s': State)
    requires m < |s.outbox| <= |s'.outbox|
  {
    var o, n := s.outbox[m], s'.outbox[m];
    && n.run == o.run && n.key == o.key && n.notBefore == o.notBefore && n.createdAt == o.createdAt
    && (n.processed ==> o.processed || Sent(s, m))
  }

  predicate OutboxMoved(s: State, s': State) {
    && |s.outbox| <= |s'.outbox| <= |s.outbox| + 1
    && (forall m | 0 <= m < |s.outbox| :: MovedRow(s, m, s'))
    && (|s.outbox| < |s'.outbox| ==> !s'.outbox[|s.outbox|].processed)
    && (forall m | m in s'.batch :: Sent(s', m) ==> Sent(s, m) || HasEntry(s'.stream, m))
  }

  lemma PublishMoves(s: State, act: SchedulerAction)
    requires WF(s)
    ensures OutboxMoved(s, SchedulerStep(s, act))
  {
    hide WF, RunOk, JobOk, EntryOk, Publishable, StuckRow;
    match act
    case Publish(m, added, replied) =>
      var s' := SchedulerStep(s, act);
      if |s.stream| < |s'.stream| {
        assert s'.stream[|s.stream|].msg == Some(m);
        assert HasEntry(s'.stream, m);
      }
    case CommitPublished =>
    case Scan =>
    case Recover(r, _) => if r in s.scan { ScanIsOk(s, r); }
    case Restart =>
  }

  lemma OutboxMoves(s: State, act: Action)
    requires WF(s)
    ensures OutboxMoved(s, Step(s, act))
  {
    hide WF, WorkerStep, SchedulerStep, ApiStep, RunOk, JobOk, EntryOk;
    match act
    case Worker(w, a) => WorkerKeepsTables(s, w, a);
    case Scheduler(a) => PublishMoves(s, a);
    case Api(a) => ApiAddsRows(s, a);
    case _ =>
  }

  lemma ApiAddsRows(s: State, act: ApiAction)
    requires WF(s)
    ensures OutboxMoved(s, ApiStep(s, act))
  {
    hide WF, RunOk, JobOk, EntryOk, KeyUsed, Terminal, Sent, HasEntry;
    var s' := ApiStep(s, act);
    assert s'.batch == s.batch;
    assert s'.outbox == s.outbox || (|s'.outbox| == |s.outbox| + 1 && s.outbox == s'.outbox[..|s.outbox|]);
    forall m | m in s'.batch && Sent(s', m) ensures Sent(s, m) { SameBatch(s, s', m); }
  }

  lemma SameBatch(s: State, s': State, m: MsgId)
    requires s'.batch == s.batch
    ensures Sent(s', m) == Sent(s, m)
  {
  }

  /** Tables no worker writes. */
  predicate SameTables(s: State, s': State) {
    && s'.outbox == s.outbox && s'.batch == s.batch && s'.now == s.now
    && s'.scan == s.scan && s'.scanAt == s.scanAt && s'.deadLetters == s.deadLetters
  }

  lemma LooksKeepTables(s: State, w: WorkerId)
    requires WF(s)
    ensures SameTables(s, DoLookApproved(s, w))
    ensures SameTables(s, DoLookConsumed(s, w))
    ensures SameTables(s, DoSettle(s, w))
  {
    hide WF, JobOk, EntryOk, RunOk, Latest;
  }

  lemma ClaimsKeepTables(s: State, w: WorkerId)
    requires WF(s)
    ensures SameTables(s, DoLoad(s, w))
    ensures SameTables(s, DoReadClock(s, w))
    ensures SameTables(s, DoClaim(s, w))
  {
    hide WF, JobOk, EntryOk, RunOk, Claimable, Terminal;
  }

  lemma CallsKeepTables(s: State, w: WorkerId)
    requires WF(s)
    ensures SameTables(s, DoStartCall(s, w))
    ensures SameTables(s, DoCallReturns(s, w))
    ensures SameTables(s, DoCallRaises(s, w))
    ensures SameTables(s, DoFinalizeOk(s, w))
    ensures SameTables(s, DoFinalizeRaises(s, w))
    ensures SameTables(s, DoFinalizeAmbiguous(s, w))
  {
    hide WF, JobOk, EntryOk, RunOk;
  }

  lemma WorkerKeepsTables(s: State, w: WorkerId, act: WorkerAction)
    requires WF(s)
    ensures SameTables(s, WorkerStep(s, w, act))
  {
    hide WF, JobOk, EntryOk, RunOk, Verdict0, Claimable, MayFinish, Terminal;
    match act
    case Read(e) => assert SameTables(s, DoRead(s, w, e));
    case Reclaim(e) => assert SameTables(s, DoReclaim(s, w, e));
    case Load => ClaimsKeepTables(s, w);
    case ReadClock => ClaimsKeepTables(s, w);
    case Claim => ClaimsKeepTables(s, w);
    case CallAllowed(tool, args) => assert SameTables(s, DoCallAllowed(s, w, tool, args));
    case Park(tool, args) => assert SameTables(s, DoPark(s, w, tool, args));
    case Beat(at) => assert SameTables(s, DoBeat(s, w, at));
    case Finish(st, written) => assert SameTables(s, DoFinish(s, w, st, written));
    case Ack => assert SameTables(s, DoAck(s, w));
    case Crash =>
    case LookApproved => LooksKeepTables(s, w);
    case LookConsumed => LooksKeepTables(s, w);
    case Settle => LooksKeepTables(s, w);
    case _ => CallsKeepTables(s, w);
  }

  lemma ClockMoves(s: State, act: Action)
    requires WF(s)
    ensures s.now <= Step(s, act).now
  {
    hide WF, WorkerStep, RunOk, JobOk, EntryOk;
    if act.Worker? { WorkerKeepsTables(s, act.worker, act.act); }
  }
}
