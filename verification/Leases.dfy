/**
Lease mutual exclusion: while no live worker lets its lease run out, a run is executed by one worker at a time; and
with no such assumption, nobody but the worker named in the row prolongs a lease.
*/
module Leases {
  import opened Types
  import opened Protocol
  import opened Frames
  import Coverage

  /** `w` has claimed run `r` and is still at work on it. */
  predicate Executes(s: State, w: WorkerId, r: RunId) {
    JobOf(s, w).Busy() && JobOf(s, w).run == r
  }

  /** The row names the executing worker, unless recovery already gave the run up. */
  predicate Owns(s: State, w: WorkerId, r: RunId) {
    && r < |s.runs|
    && ((s.runs[r].status == Executing && s.runs[r].worker == Some(w)) || s.runs[r].status == Failed)
  }

  predicate Exclusive(s: State) {
    && (forall w | w in s.jobs && s.jobs[w].Busy() :: Owns(s, w, s.jobs[w].run))
    && (forall v, w | v in s.jobs && w in s.jobs && s.jobs[v].Busy() && s.jobs[w].Busy() && v != w ::
          s.jobs[v].run != s.jobs[w].run)
  }

  /** No worker at work has let the lease on its own run expire. */
  predicate LiveLeases(s: State) {
    forall w | w in s.jobs && s.jobs[w].Busy() :: LiveLease(s, w, s.jobs[w].run)
  }

  predicate LiveLease(s: State, w: WorkerId, r: RunId) {
    r < |s.runs| && s.runs[r].status == Executing && s.runs[r].worker == Some(w) ==>
      s.runs[r].lease.Some? && s.now <= s.runs[r].lease.value
  }

  lemma OwnBusy(s: State, w: WorkerId, act: WorkerAction)
    requires WF(s) && JobOf(WorkerStep(s, w, act), w).Busy()
    ensures
      var s' := WorkerStep(s, w, act);
      var r := JobOf(s', w).run;
      || Executes(s, w, r)
      || (act.Claim? && JobOf(s, w).Claiming? && JobOf(s, w).run == r)
  {
    hide WF, RunOk, EntryOk, JobOk;
  }

  /** A worker is at work because it was, or because it has just claimed the run. */
  lemma BusyMoves(s: State, act: Action, w: WorkerId)
    requires WF(s) && JobOf(Step(s, act), w).Busy()
    ensures
      var r := JobOf(Step(s, act), w).run;
      || Executes(s, w, r)
      || (act == Worker(w, Claim) && r < |s.runs| <= |Step(s, act).runs| && ClaimsRun(s, act, r, Step(s, act)))
  {
    hide WF, WorkerStep, RunOk, JobOk, EntryOk;
    match act
    case Worker(v, wact) =>
      OthersKeepJobs(s, v, wact);
      if v == w {
        OwnBusy(s, w, wact);
        if !JobOf(s, w).Busy() { ClaimWorks(s, w); }
      }
    case _ =>
  }

  lemma ClaimWorks(s: State, w: WorkerId)
    requires WF(s) && JobOf(s, w).Claiming? && JobOf(WorkerStep(s, w, Claim), w).Busy()
    ensures JobOf(s, w).run < |s.runs| == |WorkerStep(s, w, Claim).runs|
    ensures ClaimsRun(s, Worker(w, Claim), JobOf(s, w).run, WorkerStep(s, w, Claim))
  {
    hide WF, RunOk, EntryOk;
    JobIsOk(s, w);
  }

  /** Nobody can claim a run a live worker is executing. */
  lemma NotClaimable(s: State, act: Action, w: WorkerId, r: RunId)
    requires WF(s) && Coverage.RunsInv(s) && Exclusive(s) && LiveLeases(s)
    requires Executes(s, w, r) && r < |s.runs| <= |Step(s, act).runs|
    ensures !ClaimsRun(s, act, r, Step(s, act))
  {
    hide WF, Step;
    assert Owns(s, w, r) && LiveLease(s, w, r) && Coverage.StoredRun(s, s.runs[r]);
    if act.Worker? { JobIsOk(s, act.worker); }
  }

  lemma OwnershipKeeps(s: State, act: Action, w: WorkerId)
    requires WF(s) && Coverage.RunsInv(s) && Exclusive(s) && LiveLeases(s)
    requires w in Step(s, act).jobs && Step(s, act).jobs[w].Busy()
    ensures Owns(Step(s, act), w, Step(s, act).jobs[w].run)
  {
    hide WF, Step, Coverage.RunsInv, LiveLeases, StuckRow, Claimable;
    var s' := Step(s, act);
    var r := s'.jobs[w].run;
    BusyMoves(s, act, w);
    RunsMove(s, act);
    if Executes(s, w, r) {
      assert Owns(s, w, r);
      NotClaimable(s, act, w, r);
      assert MovedRun(s, act, r, s');
    }
  }

  lemma ExclusiveKeeps(s: State, act: Action)
    requires WF(s) && Coverage.RunsInv(s) && Exclusive(s) && LiveLeases(s)
    ensures Exclusive(Step(s, act))
  {
    hide WF, Step, Coverage.RunsInv, LiveLeases, Owns, ClaimsRun;
    var s' := Step(s, act);
    RunsMove(s, act);
    forall w | w in s'.jobs && s'.jobs[w].Busy() ensures Owns(s', w, s'.jobs[w].run) {
      OwnershipKeeps(s, act, w);
    }
    forall v, w | v in s'.jobs && w in s'.jobs && s'.jobs[v].Busy() && s'.jobs[w].Busy() && v != w
      ensures s'.jobs[v].run != s'.jobs[w].run
    {
      BusyMoves(s, act, v);
      BusyMoves(s, act, w);
      var r := s'.jobs[v].run;
      if s'.jobs[w].run == r {
        if Executes(s, v, r) && !Executes(s, w, r) { NotClaimable(s, act, v, r); }
        if Executes(s, w, r) && !Executes(s, v, r) { NotClaimable(s, act, w, r); }
      }
    }
  }

  lemma {:induction false} ExclusiveAt(acts: seq<Action>, n: nat)
    requires n <= |acts| && forall k | 0 <= k < n :: LiveLeases(At(acts, k))
    ensures Exclusive(At(acts, n))
  {
    hide WF;
    if n > 0 {
      hide Exclusive, LiveLeases;
      ExclusiveAt(acts, n - 1);
      Coverage.InvAt(acts, n - 1);
      AtNext(acts, n - 1);
      ExclusiveKeeps(At(acts, n - 1), acts[n - 1]);
    }
  }

  /** If no live lease ran out on the way, no two workers execute the same run. */
  lemma {:induction false} MutualExclusion(acts: seq<Action>, v: WorkerId, w: WorkerId, r: RunId)
    requires forall k | 0 <= k < |acts| :: LiveLeases(At(acts, k))
    requires Executes(Exec(Init(), acts), v, r) && Executes(Exec(Init(), acts), w, r)
    ensures v == w
  {
    hide WF;
    assert acts[..|acts|] == acts;
    ExclusiveAt(acts, |acts|);
  }

  // ---------------------------------------------------------------------------------------------
  // Displaced workers
  // ---------------------------------------------------------------------------------------------

  lemma LeaseMoves(s: State, act: Action, r: RunId)
    requires WF(s) && r < |s.runs| <= |Step(s, act).runs|
    requires !ClaimsRun(s, act, r, Step(s, act))
    ensures
      var o, n := s.runs[r], Step(s, act).runs[r];
      n.worker == o.worker && (n.lease == o.lease || (act.Worker? && act.act.Beat? && o.worker == Some(act.worker)))
  {
    hide WF, Step;
    RunsMove(s, act);
    assert MovedRun(s, act, r, Step(s, act));
  }

  /** Run `r` is claimed by the `k`-th action. */
  predicate ClaimedAt(acts: seq<Action>, k: nat, r: RunId) {
    && k < |acts|
    && r < |At(acts, k).runs| <= |At(acts, k + 1).runs|
    && ClaimsRun(At(acts, k), acts[k], r, At(acts, k + 1))
  }

  /**
  Between two claims a row keeps naming the same worker, and its lease moves only if that very worker sent a heartbeat:
  nothing a displaced worker does touches the lease of its successor.
  */
  lemma {:induction false} DisplacedHeartbeats(acts: seq<Action>, m: nat, n: nat, r: RunId, holder: Option<WorkerId>)
    requires m <= n <= |acts| && r < |At(acts, m).runs| && At(acts, m).runs[r].worker == holder
    requires forall k | m <= k < n :: !ClaimedAt(acts, k, r)
    requires forall k | m <= k < n :: acts[k].Worker? && acts[k].act.Beat? ==> holder != Some(acts[k].worker)
    ensures r < |At(acts, n).runs|
    ensures At(acts, n).runs[r].worker == holder && At(acts, n).runs[r].lease == At(acts, m).runs[r].lease
  {
    hide WF, Step, ClaimsRun, MovedRun;
    if m < n {
      DisplacedHeartbeats(acts, m, n - 1, r, holder);
      AtNext(acts, n - 1);
      RunsMove(At(acts, n - 1), acts[n - 1]);
      assert !ClaimedAt(acts, n - 1, r);
      LeaseMoves(At(acts, n - 1), acts[n - 1], r);
    }
  }
}
