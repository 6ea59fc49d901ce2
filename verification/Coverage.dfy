/**
No stranded run: whatever crashes, is delivered twice or is published twice, a run that is not at rest can always be
picked up again.
*/
module Coverage {
  import opened Types
  import opened Policy
  import opened Protocol
  import opened Frames

  // ---------------------------------------------------------------------------------------------
  // Run rows
  // ---------------------------------------------------------------------------------------------

  /** A stored run has one of seven statuses, and an executing one has a lease that ends with its heartbeat's. */
  predicate StoredRun(s: State, row: Run) {
    && (row.status in {Queued, Executing} || Final(row.status))
    && (row.heartbeat.Some? ==> row.heartbeat.value <= s.now)
    && (row.status == Executing ==>
          row.worker.Some? && row.heartbeat.Some? && row.lease.Some? && row.lease.value <= row.heartbeat.value + LEASE)
  }

  predicate RunsInv(s: State) {
    forall r | 0 <= r < |s.runs| :: StoredRun(s, s.runs[r])
  }

  lemma RunsKeep(s: State, act: Action)
    requires WF(s) && RunsInv(s)
    ensures RunsInv(Step(s, act))
  {
    hide WF, Step;
    var s' := Step(s, act);
    RunsMove(s, act);
    ClockMoves(s, act);
    if act.Worker? { JobIsOk(s, act.worker); }
    forall r | 0 <= r < |s'.runs| ensures StoredRun(s', s'.runs[r]) {
      if r < |s.runs| { assert MovedRun(s, act, r, s') && StoredRun(s, s.runs[r]); }
    }
  }

  // ---------------------------------------------------------------------------------------------
  // Coverage of queued runs
  // ---------------------------------------------------------------------------------------------

  /** A published row has an entry; an entry that passed its claim point leaves its run not queued. */
  predicate EntrySpent(s: State, e: Entry) {
    && (e.acked ==> e.passed)
    && (e.passed && e.msg.Some? && e.run < |s.runs| && s.runs[e.run].cover == e.msg.value ==>
          s.runs[e.run].status != Queued)
  }

  predicate JobPassed(s: State, j: Job) {
    (j.Busy() || j.Acking?) && j.entry < |s.stream| ==> s.stream[j.entry].passed
  }

  predicate CoverInv(s: State) {
    && (forall m | 0 <= m < |s.outbox| :: s.outbox[m].processed ==> HasEntry(s.stream, m))
    && (forall m | m in s.batch :: Sent(s, m) ==> HasEntry(s.stream, m))
    && (forall e | 0 <= e < |s.stream| :: EntrySpent(s, s.stream[e]))
    && (forall w | w in s.jobs :: JobPassed(s, s.jobs[w]))
  }

  lemma EntriesStay(s: State, act: Action, m: MsgId)
    requires WF(s) && HasEntry(s.stream, m)
    ensures HasEntry(Step(s, act).stream, m)
  {
    hide WF, Step;
    StreamMoves(s, act);
    var e :| 0 <= e < |s.stream| && s.stream[e].msg == Some(m);
    assert MovedEntry(s, act, e, Step(s, act));
  }

  lemma PublishedKeep(s: State, act: Action)
    requires WF(s) && CoverInv(s)
    ensures forall m | 0 <= m < |Step(s, act).outbox| ::
              Step(s, act).outbox[m].processed ==> HasEntry(Step(s, act).stream, m)
    ensures forall m | m in Step(s, act).batch :: Sent(Step(s, act), m) ==> HasEntry(Step(s, act).stream, m)
  {
    hide WF, Step, EntrySpent, JobPassed;
    var s' := Step(s, act);
    OutboxMoves(s, act);
    forall m: MsgId | HasEntry(s.stream, m) ensures HasEntry(s'.stream, m) { EntriesStay(s, act, m); }
    forall m | 0 <= m < |s'.outbox| && s'.outbox[m].processed ensures HasEntry(s'.stream, m) {
      if m < |s.outbox| { assert MovedRow(s, m, s'); }
    }
  }

  /** Going through the claim point leaves the run not queued. */
  lemma ClaimPoint(s: State, w: WorkerId, act: WorkerAction, e: EntryId)
    requires WF(s) && (act.Load? || act.Claim?) && e < |s.stream| <= |Step(s, Worker(w, act)).stream|
    requires !s.stream[e].passed && Step(s, Worker(w, act)).stream[e].passed
    ensures s.stream[e].run < |s.runs| <= |Step(s, Worker(w, act)).runs|
    ensures Step(s, Worker(w, act)).runs[s.stream[e].run].status != Queued
  {
    hide WF, RunOk;
    JobIsOk(s, w);
    if JobOf(s, w).Got? { EntryIsOk(s, w); }
  }

  lemma EntryFacts(s: State, e: EntryId)
    requires WF(s) && e < |s.stream|
    ensures EntryOk(s, s.stream[e])
  {
  }

  lemma EntriesKeep(s: State, act: Action, e: EntryId)
    requires WF(s) && CoverInv(s) && e < |Step(s, act).stream|
    ensures EntrySpent(Step(s, act), Step(s, act).stream[e])
  {
    hide WF, Step;
    var s' := Step(s, act);
    StreamMoves(s, act);
    if e < |s.stream| && s'.stream[e].passed {
      EntryFacts(s, e);
      RunsMove(s, act);
      assert MovedEntry(s, act, e, s') && MovedRun(s, act, s.stream[e].run, s');
      if !s.stream[e].passed {
        hide MovedRun;
        ClaimPoint(s, act.worker, act.act, e);
      }
    } else if e < |s.stream| {
      assert MovedEntry(s, act, e, s') && EntrySpent(s, s.stream[e]);
      if act.Worker? && act.worker in s.jobs { assert JobPassed(s, s.jobs[act.worker]); }
    }
  }

  /** A job beyond the claim point was there before, or has just gone through it. */
  predicate Beyond(j: Job) {
    j.Busy() || j.Acking?
  }

  lemma ContinuationStaysBeyond(s: State, w: WorkerId, act: WorkerAction)
    requires WF(s) && Beyond(JobOf(WorkerStep(s, w, act), w))
    requires act.LookApproved? || act.LookConsumed? || act.Settle? || act.StartCall? || act.CallReturns? ||
             act.CallRaises? || act.FinalizeOk? || act.FinalizeRaises? || act.FinalizeAmbiguous?
    ensures Beyond(JobOf(s, w)) && JobOf(WorkerStep(s, w, act), w).entry == JobOf(s, w).entry
  {
    hide WF, RunOk, JobOk, EntryOk;
  }

  lemma BeyondByClaim(s: State, w: WorkerId, act: WorkerAction)
    requires WF(s) && Beyond(JobOf(WorkerStep(s, w, act), w))
    ensures
      var s' := WorkerStep(s, w, act);
      var e := JobOf(s', w).entry;
      || (Beyond(JobOf(s, w)) && e == JobOf(s, w).entry)
      || (e < |s'.stream| && s'.stream[e].passed)
  {
    hide WF, RunOk, Verdict0, Terminal, Claimable, MayFinish;
    JobIsOk(s, w);
    match act
    case Read(_) =>
    case Reclaim(_) =>
    case Load => if JobOf(s, w).Got? { EntryIsOk(s, w); }
    case ReadClock =>
    case Claim =>
    case CallAllowed(_, _) =>
    case Park(_, _) =>
    case Beat(_) =>
    case Finish(_, _) =>
    case Ack =>
    case Crash =>
    case _ => ContinuationStaysBeyond(s, w, act);
  }

  lemma JobsKeep(s: State, act: Action, w: WorkerId)
    requires WF(s) && CoverInv(s) && w in Step(s, act).jobs
    ensures JobPassed(Step(s, act), Step(s, act).jobs[w])
  {
    hide WF, EntrySpent, Step, WorkerStep;
    var s' := Step(s, act);
    var j' := s'.jobs[w];
    StreamMoves(s, act);
    if Beyond(j') {
      JobIsOk(s, w);
      JobSource(s, act, w);
      if Beyond(JobOf(s, w)) && j'.entry == JobOf(s, w).entry {
        assert MovedEntry(s, act, j'.entry, s');
      }
    }
  }

  lemma JobSource(s: State, act: Action, w: WorkerId)
    requires WF(s) && Beyond(JobOf(Step(s, act), w))
    ensures
      var e := JobOf(Step(s, act), w).entry;
      || (Beyond(JobOf(s, w)) && e == JobOf(s, w).entry)
      || (e < |Step(s, act).stream| && Step(s, act).stream[e].passed)
  {
    hide WF, WorkerStep, RunOk, JobOk, EntryOk;
    match act
    case Worker(v, wact) =>
      OthersKeepJobs(s, v, wact);
      if v == w { BeyondByClaim(s, w, wact); }
    case _ =>
  }

  lemma CoverKeeps(s: State, act: Action)
    requires WF(s) && CoverInv(s)
    ensures CoverInv(Step(s, act))
  {
    hide WF, Step, EntrySpent, JobPassed;
    var s' := Step(s, act);
    PublishedKeep(s, act);
    forall e | 0 <= e < |s'.stream| ensures EntrySpent(s', s'.stream[e]) { EntriesKeep(s, act, e); }
    forall w | w in s'.jobs ensures JobPassed(s', s'.jobs[w]) { JobsKeep(s, act, w); }
  }

  lemma {:induction false} InvAt(acts: seq<Action>, n: nat)
    requires n <= |acts|
    ensures RunsInv(At(acts, n)) && CoverInv(At(acts, n))
  {
    hide WF;
    if n > 0 {
      hide RunsInv, CoverInv;
      InvAt(acts, n - 1);
      AtNext(acts, n - 1);
      RunsKeep(At(acts, n - 1), acts[n - 1]);
      CoverKeeps(At(acts, n - 1), acts[n - 1]);
    }
  }

  // ---------------------------------------------------------------------------------------------
  // No stranded run
  // ---------------------------------------------------------------------------------------------

  predicate AtRest(row: Run) {
    Final(row.status)
  }

  /** Recovery will see the run as stuck as soon as its lease is over. */
  ghost predicate Recoverable(row: Run) {
    && row.status == Executing
    && row.lease.Some?
    && (forall scanAt: Time, now: Time :: row.lease.value < now ==> StuckRow(row, scanAt, now))
  }

  /** An outbox row of the run is still to be published, or an entry of it has not reached its claim point. */
  predicate Covered(s: State, r: RunId) {
    exists m :: 0 <= m < |s.outbox| && s.outbox[m].run == r && (!s.outbox[m].processed || Waiting(s, r, m))
  }

  predicate Waiting(s: State, r: RunId, m: MsgId) {
    exists e :: 0 <= e < |s.stream| && s.stream[e].msg == Some(m) && s.stream[e].run == r &&
                !s.stream[e].acked && !s.stream[e].passed
  }

  lemma NoStrandedRun(acts: seq<Action>, r: RunId)
    requires r < |Exec(Init(), acts).runs|
    ensures
      var s := Exec(Init(), acts);
      || AtRest(s.runs[r])
      || Recoverable(s.runs[r])
      || (s.runs[r].status == Queued && Covered(s, r))
  {
    assert acts[..|acts|] == acts;
    var s := At(acts, |acts|);
    InvAt(acts, |acts|);
    assert StoredRun(s, s.runs[r]);
    if s.runs[r].status == Queued {
      var m := s.runs[r].cover;
      assert RunOk(s, s.runs[r], r);
      if s.outbox[m].processed {
        var e :| 0 <= e < |s.stream| && s.stream[e].msg == Some(m);
        assert EntryOk(s, s.stream[e]) && EntrySpent(s, s.stream[e]);
        assert Waiting(s, r, m);
      }
      assert Covered(s, r);
    }
  }
}
