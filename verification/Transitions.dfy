/**
What the steps of the protocol do to the rows, in every reachable state: when a row is taken, what is then written, and
that nothing else is.  The times are spelled out in milliseconds.
*/
module Transitions {
  import opened Types
  import opened Policy
  import opened Protocol
  import Frames
  import Text

  /** Every run but `r` is as before; new ones may follow. */
  predicate OnlyRun(s: State, r: RunId, s': State) {
    |s.runs| <= |s'.runs| && forall q | 0 <= q < |s.runs| && q != r :: s'.runs[q] == s.runs[q]
  }

  // ---------------------------------------------------------------------------------------------
  // Recovery
  // ---------------------------------------------------------------------------------------------

  /**
  One recovery: a run that was selected with a heartbeat of the last 15 minutes and a lease that still holds is left
  alone.  Any other selected run fails; with fewer than three retries behind it, one Queued successor is committed with
  an unprocessed outbox row that is held back for 30, 60 or 120 seconds, and otherwise it goes to the dead letters.
  */
  lemma RecoveryTakes(acts: seq<Action>, r: RunId, dlqUp: bool)
    requires r in Exec(Init(), acts).scan
    ensures
      var s := Exec(Init(), acts);
      var s', row, n, m := Step(s, Scheduler(Recover(r, dlqUp))), s.scan[r], |s.runs|, |s.outbox|;
      if (row.heartbeat.Some? ==> s.scanAt - row.heartbeat.value <= 900_000) &&
         (row.lease.Some? ==> s.now <= row.lease.value)
      then
        s'.runs == s.runs && s'.outbox == s.outbox && s'.deadLetters == s.deadLetters
      else
        && r < n && OnlyRun(s, r, s')
        && s'.runs[r] == s.runs[r].(status := Failed, heartbeat := Some(s.now), retryCount := row.retryCount + 1)
        && if row.retryCount >= 3 then
             && |s'.runs| == n && s'.outbox == s.outbox
             && s'.deadLetters == if dlqUp then s.deadLetters + [r] else s.deadLetters
           else
             && |s'.runs| == n + 1 && |s'.outbox| == m + 1 && s'.outbox[..m] == s.outbox
             && s'.deadLetters == s.deadLetters
             && s'.runs[n].status == Queued && s'.runs[n].lease == None && s'.runs[n].worker == None
             && s'.runs[n].retryCount == row.retryCount + 1
             && s'.outbox[m].run == n && !s'.outbox[m].processed && s'.outbox[m].attempts == 0
             && s'.outbox[m].notBefore == Some(s.now + [30_000, 60_000, 120_000][row.retryCount])
  {
    hide WF, Exec;
    Frames.ScanIsOk(Exec(Init(), acts), r);
  }

  /** Action `k` of the schedule selected run `r` with this row, executing, at this time. */
  predicate ScannedAt(acts: seq<Action>, k: nat, r: RunId, row: Run, time: Time) {
    && k < |acts| && acts[k] == Scheduler(Scan)
    && r < |At(acts, k).runs| && At(acts, k).runs[r] == row && row.status == Executing && At(acts, k).now == time
  }

  /** The rows a round works on are those that executed when it selected them. */
  lemma {:induction false} ScanHasOrigin(acts: seq<Action>, n: nat, r: RunId)
    requires n <= |acts| && r in At(acts, n).scan
    ensures exists k :: 0 <= k < n && ScannedAt(acts, k, r, At(acts, n).scan[r], At(acts, n).scanAt)
  {
    hide WF, Step, Exec, At;
    if n == 0 {
      NoScanYet(acts);
    } else {
      AtNext(acts, n - 1);
      var s, s' := At(acts, n - 1), At(acts, n);
      if acts[n - 1] == Scheduler(Scan) {
        SelectTakes(s, r);
        assert ScannedAt(acts, n - 1, r, s'.scan[r], s'.scanAt);
      } else {
        ScanShrinks(s, acts[n - 1]);
        ScanHasOrigin(acts, n - 1, r);
      }
    }
  }

  lemma NoScanYet(acts: seq<Action>)
    ensures At(acts, 0).scan == map[]
  {
    assert acts[..0] == [];
  }

  lemma SelectTakes(s: State, r: RunId)
    requires WF(s)
    ensures
      var s' := Step(s, Scheduler(Scan));
      && (r in s'.scan <==> r < |s.runs| && s.runs[r].status == Executing)
      && (r in s'.scan ==> s'.scan[r] == s.runs[r]) && s'.scanAt == s.now
  {
    hide WF;
  }

  lemma ScanShrinks(s: State, act: Action)
    requires WF(s) && act != Scheduler(Scan)
    ensures
      var s' := Step(s, act);
      s'.scanAt == s.scanAt && forall r | r in s'.scan :: r in s.scan && s'.scan[r] == s.scan[r]
  {
    hide WF, RunOk, EntryOk, JobOk, WorkerStep;
    if act.Worker? { Frames.WorkerKeepsTables(s, act.worker, act.act); }
  }

  /**
  Whenever the scheduler fails a run, an earlier select of that schedule saw it executing, and the row it saw was late
  at that select or its lease had run out by now.
  */
  lemma RecoveredWasStuck(acts: seq<Action>, n: nat, r: RunId)
    requires n < |acts| && acts[n].Scheduler? && r < |At(acts, n).runs| && r < |At(acts, n + 1).runs|
    requires At(acts, n).runs[r].status != Failed && At(acts, n + 1).runs[r].status == Failed
    ensures exists k: nat, row: Run, time: Time ::
              && k < n && ScannedAt(acts, k, r, row, time)
              && ((row.heartbeat.Some? && time - row.heartbeat.value > 900_000) ||
                  (row.lease.Some? && At(acts, n).now > row.lease.value))
  {
    var s, s' := At(acts, n), At(acts, n + 1);
    AtNext(acts, n);
    FailedByRecovery(acts[..n], acts[n].sched, r);
    ScanHasOrigin(acts, n, r);
    var k :| 0 <= k < n && ScannedAt(acts, k, r, s.scan[r], s.scanAt);
  }

  lemma FailedByRecovery(acts: seq<Action>, act: SchedulerAction, r: RunId)
    requires
      var s := Exec(Init(), acts);
      var s' := Step(s, Scheduler(act));
      r < |s.runs| && r < |s'.runs| && s.runs[r].status != Failed && s'.runs[r].status == Failed
    ensures
      var s := Exec(Init(), acts);
      && r in s.scan
      && ((s.scan[r].heartbeat.Some? && s.scanAt - s.scan[r].heartbeat.value > 900_000) ||
          (s.scan[r].lease.Some? && s.now > s.scan[r].lease.value))
  {
    hide WF, Exec;
    var s := Exec(Init(), acts);
    if act.Recover? && act.run in s.scan {
      RecoveryTakes(acts, act.run, act.dlqUp);
    }
  }

  // ---------------------------------------------------------------------------------------------
  // Decisions
  // ---------------------------------------------------------------------------------------------

  /** The row can be decided now. */
  predicate Open(s: State, a: ApprovalId) {
    a < |s.approvals| && s.approvals[a].status == Pending && s.now <= s.approvals[a].expires
  }

  /**
  A rejection that comes in time: the approval is rejected, its run fails exactly when it waits for an approval, and
  nothing else changes, no outbox row is added.
  */
  lemma RejectionTakes(acts: seq<Action>, a: ApprovalId)
    requires Open(Exec(Init(), acts), a)
    ensures
      var s := Exec(Init(), acts);
      var s', ap := Step(s, Api(DecideApproval(a, Reject))), s.approvals[a];
      && s'.approvals == s.approvals[a := ap.(status := Rejected, decidedAt := Some(s.now))]
      && ap.run < |s.runs| == |s'.runs| && OnlyRun(s, ap.run, s')
      && (s.runs[ap.run].status == WaitingApproval ==> s'.runs[ap.run] == s.runs[ap.run].(status := Failed))
      && (s.runs[ap.run].status != WaitingApproval ==> s'.runs[ap.run] == s.runs[ap.run])
      && s' == s.(approvals := s'.approvals, runs := s'.runs)
  {
    hide WF, Exec;
    Frames.ApprovalRun(Exec(Init(), acts), a);
  }

  /**
  An approval that comes in time: its run is queued again exactly when it waits for an approval, and in any case one
  unprocessed outbox row for the run is added, which may go out at once.
  */
  lemma ApprovalTakes(acts: seq<Action>, a: ApprovalId)
    requires Open(Exec(Init(), acts), a)
    ensures
      var s := Exec(Init(), acts);
      var s', ap, m := Step(s, Api(DecideApproval(a, Approve))), s.approvals[a], |s.outbox|;
      && s'.approvals == s.approvals[a := ap.(status := Approved, decidedAt := Some(s.now))]
      && ap.run < |s.runs| == |s'.runs| && OnlyRun(s, ap.run, s')
      && s'.runs[ap.run].status ==
         (if s.runs[ap.run].status == WaitingApproval then Queued else s.runs[ap.run].status)
      && s'.runs[ap.run].lease == s.runs[ap.run].lease && s'.runs[ap.run].retryCount == s.runs[ap.run].retryCount
      && |s'.outbox| == m + 1 && s'.outbox[..m] == s.outbox
      && s'.outbox[m].run == ap.run && !s'.outbox[m].processed && s'.outbox[m].attempts == 0
      && s'.outbox[m].notBefore == None
      && s' == s.(approvals := s'.approvals, runs := s'.runs, outbox := s'.outbox)
  {
    hide WF, Exec;
    Frames.ApprovalRun(Exec(Init(), acts), a);
  }

  /** A decision that is too late only records that; one on a decided row, or with an unknown word, changes nothing. */
  lemma DecisionRefused(acts: seq<Action>, a: ApprovalId, ruling: Ruling)
    requires !Open(Exec(Init(), acts), a) || ruling == Unknown
    ensures
      var s := Exec(Init(), acts);
      var s' := Step(s, Api(DecideApproval(a, ruling)));
      if a < |s.approvals| && s.approvals[a].status == Pending && s.now > s.approvals[a].expires then
        s' == s.(approvals := s.approvals[a := s.approvals[a].(status := Expired)])
      else s' == s
  {
    hide WF, Exec;
  }

  // ---------------------------------------------------------------------------------------------
  // Claims, heartbeats and endings
  // ---------------------------------------------------------------------------------------------

  /**
  A claim takes the run exactly when it is queued, or executing without a lease that holds at the worker's reading of
  the clock; the row then names the worker, with a lease of 30 seconds.
  */
  lemma ClaimTakes(acts: seq<Action>, w: WorkerId)
    requires JobOf(Exec(Init(), acts), w).Claiming?
    ensures
      var s := Exec(Init(), acts);
      var s', j := Step(s, Worker(w, Claim)), JobOf(s, w);
      && j.run < |s.runs| == |s'.runs| && OnlyRun(s, j.run, s')
      && var row, row' := s.runs[j.run], s'.runs[j.run];
         if row.status == Queued || (row.status == Executing && (row.lease == None || j.at > row.lease.value)) then
           && row' == row.(status := Executing, worker := Some(w), heartbeat := Some(j.at),
                           lease := Some(j.at + 30_000))
           && JobOf(s', w) == Claimed(j.entry, j.run, j.seen)
         else row' == row && JobOf(s', w) == Acking(j.entry)
  {
    hide WF, Exec, EntryOk, RunOk;
    Frames.JobIsOk(Exec(Init(), acts), w);
  }

  /** A run starts to execute only by the claim of a worker, and only out of the queue. */
  lemma ExecutingWasQueued(acts: seq<Action>, act: Action, r: RunId)
    requires r < |Exec(Init(), acts).runs| && r < |Step(Exec(Init(), acts), act).runs|
    requires Exec(Init(), acts).runs[r].status != Executing && Step(Exec(Init(), acts), act).runs[r].status == Executing
    ensures
      var s := Exec(Init(), acts);
      && act.Worker? && act.act == Claim && JobOf(s, act.worker).Claiming? && JobOf(s, act.worker).run == r
      && s.runs[r].status == Queued
  {
    hide WF, Exec, Step;
    var s := Exec(Init(), acts);
    Frames.RunsMove(s, act);
    assert Frames.MovedRun(s, act, r, Step(s, act));
  }

  /** A heartbeat moves the lease to 30 seconds after its reading, exactly while the row names the worker. */
  lemma BeatTakes(acts: seq<Action>, w: WorkerId, at: Time)
    requires JobOf(Exec(Init(), acts), w).Coordinates() && at <= Exec(Init(), acts).now
    ensures
      var s := Exec(Init(), acts);
      var s', r := Step(s, Worker(w, Beat(at))), JobOf(s, w).run;
      && r < |s.runs| == |s'.runs| && OnlyRun(s, r, s') && s' == s.(runs := s'.runs)
      && (s.runs[r].worker == Some(w) ==>
            s'.runs[r] == s.runs[r].(heartbeat := Some(at), lease := Some(at + 30_000)))
      && (s.runs[r].worker != Some(w) ==> s'.runs[r] == s.runs[r])
  {
    hide WF, Exec, EntryOk, RunOk;
    Frames.JobIsOk(Exec(Init(), acts), w);
  }

  /**
  The statuses a worker may write at the end, and what it writes whatever the row says by then.  The status stays out of
  the write only when it is the one the worker had loaded.
  */
  lemma FinishTakes(acts: seq<Action>, w: WorkerId, st: RunStatus, written: bool)
    requires JobOf(Exec(Init(), acts), w).Coordinates()
    ensures
      var s := Exec(Init(), acts);
      var s', j := Step(s, Worker(w, Finish(st, written))), JobOf(s, w);
      && j.run < |s.runs| == |s'.runs| && OnlyRun(s, j.run, s')
      && if (st in {Failed, Cancelled, Paused} || st == (if j.Parked? then WaitingApproval else Completed)) &&
            (written || j.seen == st)
         then
           && s'.runs[j.run].status == (if written then st else s.runs[j.run].status)
           && s'.runs[j.run] == s.runs[j.run].(status := s'.runs[j.run].status, heartbeat := Some(s.now))
           && JobOf(s', w) == Acking(j.entry)
         else s' == s
  {
    hide WF, Exec, EntryOk, RunOk;
    Frames.JobIsOk(Exec(Init(), acts), w);
  }

  /**
  Closing over a consumed approval, by the record that was read: the run is completed exactly when that says SUCCEEDED,
  and only while it still executes; a call that never reported becomes AMBIGUOUS.  A record made since then raises.
  */
  lemma SettleTakes(acts: seq<Action>, w: WorkerId)
    requires JobOf(Exec(Init(), acts), w).Settling?
    ensures
      var s := Exec(Init(), acts);
      var s', j := Step(s, Worker(w, Settle)), JobOf(s, w);
      if j.found == None && j.approval in s.executions then s' == s.(jobs := s.jobs[w := Idle])
      else
        && j.run < |s.runs| == |s'.runs| && OnlyRun(s, j.run, s') && JobOf(s', w) == Acking(j.entry)
        && s'.runs[j.run] ==
           (if s.runs[j.run].status != Executing then s.runs[j.run]
            else s.runs[j.run].(status := if j.found == Some(Succeeded) then Completed else Failed))
        && s'.executions ==
           (if j.found in {None, Some(InFlight)} then s.executions[j.approval := Ambiguous] else s.executions)
        && s'.calls == s.calls
  {
    hide WF, Exec, EntryOk, RunOk;
    Frames.JobIsOk(Exec(Init(), acts), w);
  }

  /** After the call of a continuation: a call that returned completes the run, one that failed fails it. */
  lemma CloseTakes(acts: seq<Action>, w: WorkerId, act: WorkerAction)
    requires
      var j := JobOf(Exec(Init(), acts), w);
      (act == FinalizeOk && j.Returned?) || (act == FinalizeAmbiguous && j.CallFailed?)
    requires JobOf(Exec(Init(), acts), w).approval in Exec(Init(), acts).executions
    ensures
      var s := Exec(Init(), acts);
      var s', j := Step(s, Worker(w, act)), JobOf(s, w);
      && j.run < |s.runs| == |s'.runs| && OnlyRun(s, j.run, s') && JobOf(s', w) == Acking(j.entry)
      && s'.runs[j.run] == s.runs[j.run].(status := if j.Returned? then Completed else Failed)
      && s'.executions == s.executions[j.approval := if j.Returned? then Succeeded else Ambiguous]
  {
    hide WF, Exec, EntryOk, RunOk;
    Frames.JobIsOk(Exec(Init(), acts), w);
  }

  /** How a call ends: it returns, it raises, or it returned and the write of its result raises. */
  lemma CallTakes(acts: seq<Action>, w: WorkerId)
    ensures
      var s := Exec(Init(), acts);
      var j := JobOf(s, w);
      && (j.ToCall? && j.approval < |s.approvals| ==>
            var ap := s.approvals[j.approval];
            Step(s, Worker(w, StartCall)) ==
              s.(calls := s.calls + [Continued(w, ap.tool, ap.args, j.approval)],
                 jobs := s.jobs[w := InCall(j.entry, j.run, j.approval)]))
      && (j.InCall? ==>
            && Step(s, Worker(w, CallReturns)) ==
               s.(returned := s.returned + {j.approval}, jobs := s.jobs[w := Returned(j.entry, j.run, j.approval)])
            && Step(s, Worker(w, CallRaises)) == s.(jobs := s.jobs[w := CallFailed(j.entry, j.run, j.approval)]))
      && (j.Returned? ==>
            Step(s, Worker(w, FinalizeRaises)) == s.(jobs := s.jobs[w := CallFailed(j.entry, j.run, j.approval)]))
  {
    hide WF, Exec, EntryOk, RunOk;
    Frames.JobIsOk(Exec(Init(), acts), w);
  }

  /** A crashed worker is idle and a restarted scheduler has forgotten its round; no table changes. */
  lemma CrashTakes(acts: seq<Action>, w: WorkerId)
    ensures
      var s := Exec(Init(), acts);
      && Step(s, Worker(w, Crash)) == s.(jobs := s.jobs[w := Idle])
      && Step(s, Scheduler(Restart)) == s.(batch := map[], scan := map[])
  {
    hide WF, Exec;
  }

  // ---------------------------------------------------------------------------------------------
  // Outbox and stream
  // ---------------------------------------------------------------------------------------------

  /** A row goes out at most ten times after its first try, and not before its time. */
  predicate MayGoOut(row: OutboxRow, now: Time) {
    !row.processed && row.attempts < 11 && (row.notBefore == None || now >= row.notBefore.value)
  }

  lemma PublishTakes(acts: seq<Action>, m: MsgId, added: bool, replied: bool)
    requires m < |Exec(Init(), acts).outbox| && m !in Exec(Init(), acts).batch
    ensures
      var s := Exec(Init(), acts);
      var s', n := Step(s, Scheduler(Publish(m, added, replied))), |s.stream|;
      if !MayGoOut(s.outbox[m], s.now) then s' == s
      else
        && s'.batch == s.batch[m := added && replied] && s'.outbox == s.outbox && s'.runs == s.runs
        && |s'.stream| == (if added then n + 1 else n) && s'.stream[..n] == s.stream
        && (added ==>
              && s'.stream[n].run == s.outbox[m].run && s'.stream[n].msg == Some(m)
              && !s'.stream[n].delivered && !s'.stream[n].acked)
  {
    hide WF, Exec;
  }

  /** An entry of unknown origin: for any run, and for no outbox row. */
  lemma ForeignTakes(acts: seq<Action>, r: RunId)
    ensures
      var s := Exec(Init(), acts);
      var s', n := Step(s, ForeignAdd(r)), |s.stream|;
      if r >= |s.runs| then s' == s
      else
        && |s'.stream| == n + 1 && s'.stream[..n] == s.stream && s' == s.(stream := s'.stream)
        && s'.stream[n].run == r && s'.stream[n].msg == None && !s'.stream[n].delivered && !s'.stream[n].acked
  {
    hide WF, Exec;
  }

  /** The commit of a round counts every try and marks exactly the rows whose send was answered. */
  lemma CommitTakes(acts: seq<Action>, m: MsgId)
    requires m < |Exec(Init(), acts).outbox|
    ensures
      var s := Exec(Init(), acts);
      var s' := Step(s, Scheduler(CommitPublished));
      && |s'.outbox| == |s.outbox| && s'.batch == map[] && s'.runs == s.runs && s'.stream == s.stream
      && var row, row' := s.outbox[m], s'.outbox[m];
         if m !in s.batch then row' == row
         else
           && row' == row.(processed := row'.processed, attempts := row.attempts + 1)
           && (row'.processed <==> row.processed || s.batch[m])
  {
    hide WF, Exec;
  }

  /** An entry is handed to an idle worker when nobody had it, or when it was idle for 30 seconds without an answer. */
  lemma ReadTakes(acts: seq<Action>, w: WorkerId, e: EntryId)
    requires JobOf(Exec(Init(), acts), w).Idle? && e < |Exec(Init(), acts).stream|
    ensures
      var s := Exec(Init(), acts);
      var first, again := Step(s, Worker(w, Read(e))), Step(s, Worker(w, Reclaim(e)));
      && (if s.stream[e].delivered then first == s
          else JobOf(first, w) == Got(e) && first.stream[e].delivered && first.stream[e].idleSince == s.now)
      && (if s.stream[e].delivered && !s.stream[e].acked && s.now - s.stream[e].idleSince >= 30_000 then
            JobOf(again, w) == Got(e) && again.stream[e].idleSince == s.now
          else again == s)
  {
    hide WF, Exec;
  }

  /** What the worker does with an entry: a finished run is only acknowledged, any other goes to the claim. */
  lemma LoadTakes(acts: seq<Action>, w: WorkerId)
    requires JobOf(Exec(Init(), acts), w).Got?
    ensures
      var s := Exec(Init(), acts);
      var s', e := Step(s, Worker(w, Load)), JobOf(s, w).entry;
      && e < |s.stream| && s.stream[e].run < |s.runs| && s'.runs == s.runs
      && var r := s.stream[e].run;
         if s.runs[r].status in {Completed, Failed, Cancelled} then JobOf(s', w) == Acking(e)
         else JobOf(s', w) == Claiming(e, r, s.now, s.runs[r].status)
  {
    hide WF, Exec;
    Frames.JobIsOk(Exec(Init(), acts), w);
    Frames.EntryIsOk(Exec(Init(), acts), w);
  }

  // ---------------------------------------------------------------------------------------------
  // New rows
  // ---------------------------------------------------------------------------------------------

  /** A retry by hand needs a finished run and an unused key; it counts as one retry more and starts its own family. */
  lemma RetryTakes(acts: seq<Action>, source: RunId, key: string)
    ensures
      var s := Exec(Init(), acts);
      var s', n := Step(s, Api(CreateRun(FromRetry(source, key)))), |s.runs|;
      if source < n && s.runs[source].status in {Completed, Failed, Cancelled} &&
         forall m | 0 <= m < |s.outbox| ::
           match s.outbox[m].key
           case RetryKey(of, k) => of != source || k != key
           case RecoverKey(of, successor) => of != source || key != Text.ToDecimal(successor)
           case _ => true
      then
        && |s'.runs| == n + 1 && s'.runs[..n] == s.runs
        && s'.runs[n].status == Queued && s'.runs[n].retryCount == s.runs[source].retryCount + 1
        && s'.runs[n].root == n && s'.runs[n].lease == None
        && |s'.outbox| == |s.outbox| + 1 && s'.outbox[|s.outbox|].run == n && s'.outbox[|s.outbox|].notBefore == None
      else s' == s
  {
    hide WF, Exec;
    var s := Exec(Init(), acts);
    assert KeyUsed(s, RetryKey(source, key)) <==>
           exists m :: 0 <= m < |s.outbox| && SameText(s.outbox[m].key, RetryKey(source, key));
  }

  /** A task or a source check gets a first run with an outbox row that may go out at once, unless its key is used. */
  lemma CreationTakes(acts: seq<Action>, origin: Origin)
    requires !origin.FromRetry?
    ensures
      var s := Exec(Init(), acts);
      var s', n, m := Step(s, Api(CreateRun(origin))), |s.runs|, |s.outbox|;
      var key := if origin.FromTask? then TaskKey(origin.task) else RunKey(n);
      if exists i :: 0 <= i < m && s.outbox[i].key == key then s' == s
      else
        && |s'.runs| == n + 1 && s'.runs[..n] == s.runs && s' == s.(runs := s'.runs, outbox := s'.outbox)
        && s'.runs[n].status == Queued && s'.runs[n].retryCount == 0 && s'.runs[n].root == n
        && s'.outbox == s.outbox + [NewRow(n, key, None, s.now)]
  {
    hide WF, Exec;
  }

  /** A gated action is parked as it was planned, for one hour; an action that is not gated is not. */
  lemma ParkTakes(acts: seq<Action>, w: WorkerId, tool: string, args: Json)
    requires JobOf(Exec(Init(), acts), w).Running?
    ensures
      var s := Exec(Init(), acts);
      var s', j, n := Step(s, Worker(w, Park(tool, args))), JobOf(s, w), |s.approvals|;
      if Verdict0(tool) != RequireApproval then s' == s
      else
        && |s'.approvals| == n + 1 && s'.approvals[..n] == s.approvals && s'.runs == s.runs
        && s'.approvals[n].run == j.run && s'.approvals[n].tool == tool && s'.approvals[n].args == args
        && s'.approvals[n].status == Pending && s'.approvals[n].expires == s.now + 3_600_000
        && JobOf(s', w) == Parked(j.entry, j.run, j.seen)
  {
    hide WF, Exec, Verdict0;
  }
}
