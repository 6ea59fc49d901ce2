/**
The shared tables as a class that the API, the scheduler and the workers update in place.  Each method is one
transaction (or one uninterrupted round of them) and is proved to do what the transition system says.
*/
module Store {
  import opened Types
  import opened Policy
  import opened Protocol
  import Frames

  datatype DecideResult =
    | Decided(status: ApprovalStatus)
    | NotFound
    | AlreadyDecided(status: ApprovalStatus)
    | TooLate
    | BadDecision

  /** What a consumption answers: done, not possible, or an error from the unique constraint on records. */
  datatype ConsumeResult = Granted | Refused(record: Option<ExStatus>) | Violation

  /** The first `limit` unprocessed rows at or after position `from`, oldest first. */
  function FirstUnprocessed(outbox: seq<OutboxRow>, from: nat, limit: nat): (ms: seq<MsgId>)
    requires from <= |outbox|
    decreases |outbox| - from
  {
    if limit == 0 || from == |outbox| then []
    else if outbox[from].processed then FirstUnprocessed(outbox, from + 1, limit)
    else [from] + FirstUnprocessed(outbox, from + 1, limit - 1)
  }

  /** They are unprocessed and in order. */
  lemma {:induction false} FirstUnprocessedAreInOrder(outbox: seq<OutboxRow>, from: nat, limit: nat)
    requires from <= |outbox|
    ensures
      var ms := FirstUnprocessed(outbox, from, limit);
      && |ms| <= limit
      && (forall i | 0 <= i < |ms| :: from <= ms[i] < |outbox| && !outbox[ms[i]].processed)
      && (forall i, j | 0 <= i < j < |ms| :: ms[i] < ms[j])
    decreases |outbox| - from
  {
    if limit > 0 && from < |outbox| {
      FirstUnprocessedAreInOrder(outbox, from + 1, if outbox[from].processed then limit else limit - 1);
    }
  }

  /** An unprocessed row is passed over only behind `limit` older ones. */
  lemma {:induction false} FirstUnprocessedAreOldest(outbox: seq<OutboxRow>, from: nat, limit: nat, m: MsgId)
    requires from <= m < |outbox| && !outbox[m].processed && m !in FirstUnprocessed(outbox, from, limit)
    ensures
      var ms := FirstUnprocessed(outbox, from, limit);
      |ms| == limit && forall i | 0 <= i < |ms| :: ms[i] < m
    decreases |outbox| - from
  {
    if limit > 0 {
      if outbox[from].processed {
        FirstUnprocessedAreOldest(outbox, from + 1, limit, m);
      } else {
        var rest := FirstUnprocessed(outbox, from + 1, limit - 1);
        assert FirstUnprocessed(outbox, from, limit) == [from] + rest;
        assert ([from] + rest)[0] == from;
        FirstUnprocessedAreOldest(outbox, from + 1, limit - 1, m);
      }
    }
  }

  /** What becomes of one XADD: refused, added while the answer was lost, or answered. */
  datatype Fate = NotAdded | AnswerLost | Answered

  function PublishAct(m: MsgId, fate: Fate): (act: Action) {
    Scheduler(Publish(m, !fate.NotAdded?, fate.Answered?))
  }

  /** One round of the publisher over the rows `ms`; `up(m)` says what becomes of the entry of row `m`. */
  function PublishRound(ms: seq<MsgId>, up: MsgId -> Fate): (acts: seq<Action>) {
    if ms == [] then []
    else
      var m := ms[|ms| - 1];
      PublishRound(ms[..|ms| - 1], up) + [PublishAct(m, up(m))]
  }

  /** One round of recovery: the scan, then the runs below `n` one by one. */
  function RecoveryRound(n: nat, dlqUp: bool): (acts: seq<Action>) {
    if n == 0 then [Scheduler(Scan)] else RecoveryRound(n - 1, dlqUp) + [Scheduler(Recover(n - 1, dlqUp))]
  }

  class Tables {
    var now: Time
    var runs: seq<Run>
    var approvals: seq<Approval>
    var executions: map<ApprovalId, ExStatus>
    var outbox: seq<OutboxRow>
    var stream: seq<Entry>
    var jobs: map<WorkerId, Job>
    var batch: map<MsgId, bool>
    var scan: map<RunId, Run>
    var scanAt: Time
    var deadLetters: seq<RunId>
    var calls: seq<Call>
    var returned: set<ApprovalId>

    ghost function View(): (s: State)
      reads this
    {
      State(now, runs, approvals, executions, outbox, stream, jobs, batch, scan, scanAt, deadLetters, calls, returned)
    }

    ghost predicate Valid()
      reads this
    {
      WF(View())
    }

    constructor ()
      ensures Valid() && View() == Init()
    {
      now, runs, approvals, executions, outbox, stream := 0, [], [], map[], [], [];
      jobs, batch, scan, scanAt, deadLetters, calls, returned := map[], map[], map[], 0, [], [], {};
    }

    // -------------------------------------------------------------------------------------------
    // API
    // -------------------------------------------------------------------------------------------

    /** A new task's run and its outbox row, in one transaction; a key already in use aborts it. */
    method CreateTaskRun(task: nat) returns (created: bool)
      requires Valid()
      modifies this
      ensures View() == DoCreateRun(old(View()), FromTask(task))
      ensures Valid()
      ensures created <==> !KeyUsed(old(View()), TaskKey(task))
      ensures created ==> |runs| == |old(runs)| + 1 && |outbox| == |old(outbox)| + 1 &&
                          runs[|old(runs)|].status == Queued && outbox[|old(outbox)|].run == |old(runs)|
    {
      hide WF, RunOk, EntryOk, JobOk;
      if exists m :: 0 <= m < |outbox| && outbox[m].key == TaskKey(task) {
        return false;
      }
      var run := |runs|;
      runs := runs + [Run(Queued, None, None, None, 0, run, 0, |outbox|)];
      outbox := outbox + [NewRow(run, TaskKey(task), None, now)];
      return true;
    }

    // -------------------------------------------------------------------------------------------
    // Approvals
    // -------------------------------------------------------------------------------------------

    /** The decision, the run's transition and the outbox row, all in one transaction. */
    method DecideWithContinuation(a: ApprovalId, ruling: Ruling) returns (result: DecideResult)
      requires Valid()
      modifies this
      ensures View() == DoDecide(old(View()), a, ruling)
      ensures Valid()
      ensures result.NotFound? <==> a >= |old(approvals)|
      ensures result.Decided? <==>
                a < |old(approvals)| && old(approvals)[a].status == Pending && now <= old(approvals)[a].expires &&
                ruling != Unknown
      ensures result.Decided? ==> approvals[a].status == result.status && approvals[a].decidedAt == Some(now)
      ensures result.Decided? ==>
                && result.status == (if ruling == Approve then Approved else Rejected)
                && old(approvals)[a].run < |old(runs)| == |runs|
                && forall r | 0 <= r < |runs| ::
                     if r == old(approvals)[a].run && old(runs)[r].status == WaitingApproval then
                       runs[r].status == if ruling == Approve then Queued else Failed
                     else runs[r] == old(runs)[r]
      ensures result.Decided? && ruling == Reject ==> outbox == old(outbox)
      ensures result.Decided? && ruling == Approve ==>
                outbox == old(outbox) + [NewRow(old(approvals)[a].run, ApproveKey(a), None, now)]
      ensures result.AlreadyDecided? || result.BadDecision? ==> View() == old(View())
      ensures result.TooLate? ==> approvals[a].status == Expired
    {
      hide WF, RunOk, EntryOk, JobOk;
      if a >= |approvals| { return NotFound; }
      Frames.ApprovalRun(View(), a);
      var ap := approvals[a];
      if ap.status != Pending { return AlreadyDecided(ap.status); }
      if ap.expires < now {
        approvals := approvals[a := ap.(status := Expired)];
        return TooLate;
      }
      if ruling == Unknown { return BadDecision; }
      var status := if ruling == Approve then Approved else Rejected;
      approvals := approvals[a := ap.(status := status, decidedAt := Some(now))];
      var run := runs[ap.run];
      if ruling == Approve {
        if run.status == WaitingApproval {
          run := run.(status := Queued, cover := |outbox|);
        }
        runs := runs[ap.run := run];
        outbox := outbox + [NewRow(ap.run, ApproveKey(a), None, now)];
      } else {
        if run.status == WaitingApproval {
          run := run.(status := Failed);
        }
        runs := runs[ap.run := run];
      }
      return Decided(status);
    }

    /** Stores the gated action a coordinator met, exactly as planned, as a pending approval. */
    method CreateApproval(w: WorkerId, tool: string, args: Json) returns (a: ApprovalId)
      requires Valid() && JobOf(View(), w).Running? && Verdict0(tool).RequireApproval?
      modifies this
      ensures View() == DoPark(old(View()), w, tool, args)
      ensures Valid()
      ensures a == |old(approvals)| && |approvals| == a + 1
      ensures approvals[a].tool == tool && approvals[a].args == args && approvals[a].status == Pending
      ensures approvals[a].run == JobOf(old(View()), w).run && approvals[a].expires == now + 3_600_000
    {
      hide WF, RunOk, EntryOk, JobOk, Verdict0;
      var job := jobs[w];
      a := |approvals|;
      approvals := approvals + [Approval(job.run, tool, args, Pending, now + APPROVAL_TTL, None, None, None)];
      jobs := jobs[w := Parked(job.entry, job.run, job.seen)];
    }

    /**
    Consumes an approved, unexpired approval and records its execution.  A record that exists already makes the unique
    constraint raise, and nothing is written; every other refusal reports the record it finds of a consumed approval.
    */
    method ConsumeAndRecord(a: ApprovalId, w: WorkerId) returns (result: ConsumeResult)
      requires Valid()
      modifies this
      ensures Valid()
      ensures result.Granted? || result.Violation? <==>
                a < |old(approvals)| && old(approvals)[a].status == Approved && now <= old(approvals)[a].expires
      ensures result.Violation? ==> a in old(executions)
      ensures result.Granted? ==> a !in old(executions) && View() == Consume(old(View()), a, w)
      ensures !result.Granted? ==>
                if a < |old(approvals)| && old(approvals)[a].status == Pending && old(approvals)[a].expires < now then
                  View() == old(View()).(approvals := old(approvals)[a := old(approvals)[a].(status := Expired)])
                else View() == old(View())
      ensures result.Refused? ==>
                result.record == if a < |old(approvals)| && old(approvals)[a].status == Consumed &&
                                    now <= old(approvals)[a].expires && a in executions
                                 then Some(executions[a]) else None
    {
      if a >= |approvals| { return Refused(None); }
      var ap := approvals[a];
      if ap.expires < now {
        if ap.status == Pending {
          approvals := approvals[a := ap.(status := Expired)];
        }
        return Refused(None);
      }
      if ap.status == Consumed {
        return Refused(if a in executions then Some(executions[a]) else None);
      }
      if ap.status != Approved { return Refused(None); }
      if a in executions { return Violation; }
      approvals := approvals[a := ap.(status := Consumed, consumedAt := Some(now), consumedBy := Some(w))];
      executions := executions[a := InFlight];
      return Granted;
    }

    // -------------------------------------------------------------------------------------------
    // Workers
    // -------------------------------------------------------------------------------------------

    /** The claiming UPDATE; `rowCount` is what the database reports. */
    method ClaimRun(w: WorkerId) returns (rowCount: nat)
      requires Valid() && JobOf(View(), w).Claiming?
      modifies this
      ensures View() == DoClaim(old(View()), w)
      ensures Valid()
      ensures rowCount == if Claimable(old(runs)[JobOf(old(View()), w).run], JobOf(old(View()), w).at) then 1 else 0
      ensures rowCount == 1 <==> JobOf(View(), w).Busy()
    {
      hide WF, RunOk, EntryOk;
      Frames.JobIsOk(View(), w);
      var job := jobs[w];
      var row := runs[job.run];
      stream := stream[job.entry := stream[job.entry].(passed := true)];
      if row.status == Queued || (row.status == Executing && (row.lease == None || row.lease.value < job.at)) {
        row := row.(status := Executing, worker := Some(w));
        row := row.(heartbeat := Some(job.at), lease := Some(job.at + LEASE));
        runs := runs[job.run := row];
        jobs := jobs[w := Claimed(job.entry, job.run, job.seen)];
        rowCount := 1;
      } else {
        jobs := jobs[w := Acking(job.entry)];
        rowCount := 0;
      }
    }

    /** The select for approved rows and, if there is one, its consumption. */
    method LookApproved(w: WorkerId)
      requires Valid() && JobOf(View(), w).Claimed?
      modifies this
      ensures View() == DoLookApproved(old(View()), w)
      ensures Valid()
    {
      hide WF, RunOk, EntryOk, JobOk;
      var job := jobs[w];
      var approved := Newest(job.run, Approved);
      if approved == None {
        jobs := jobs[w := NoneApproved(job.entry, job.run, job.seen)];
      } else {
        var result := ConsumeAndRecord(approved.value, w);
        match result
        case Granted => jobs := jobs[w := ToCall(job.entry, job.run, approved.value)];
        case Refused(_) => jobs := jobs[w := Acking(job.entry)];
        case Violation => jobs := jobs[w := Idle];  // the exception leaves the entry pending
      }
    }

    /** The select for consumed rows; without one the worker plans anew. */
    method LookConsumed(w: WorkerId)
      requires Valid() && JobOf(View(), w).NoneApproved?
      modifies this
      ensures View() == DoLookConsumed(old(View()), w)
      ensures Valid()
    {
      hide WF, RunOk, EntryOk, JobOk;
      var job := jobs[w];
      var spent := Newest(job.run, Consumed);
      if spent == None {
        jobs := jobs[w := Running(job.entry, job.run, job.seen)];
      } else {
        var a := spent.value;
        jobs := jobs[w := Settling(job.entry, job.run, a, if a in executions then Some(executions[a]) else None)];
      }
    }

    /** ORDER BY created_at DESC, first row. */
    method Newest(r: RunId, st: ApprovalStatus) returns (a: Option<ApprovalId>)
      ensures a == Latest(approvals, r, st)
    {
      var n := |approvals|;
      while n > 0
        invariant 0 <= n <= |approvals|
        invariant forall b | n <= b < |approvals| :: approvals[b].run != r || approvals[b].status != st
      {
        if approvals[n - 1].run == r && approvals[n - 1].status == st { return Some(n - 1); }
        n := n - 1;
      }
      return None;
    }

    /** The heartbeat UPDATE with the clock reading `at`; it touches the row only while it names this worker. */
    method Heartbeat(w: WorkerId, at: Time)
      requires Valid() && JobOf(View(), w).Coordinates() && at <= now
      modifies this`runs
      ensures View() == DoBeat(old(View()), w, at)
      ensures Valid()
      ensures JobOf(View(), w).run < |runs| == |old(runs)|
      ensures old(runs)[JobOf(View(), w).run].worker != Some(w) ==> runs == old(runs)
      ensures old(runs)[JobOf(View(), w).run].worker == Some(w) ==>
                var row := runs[JobOf(View(), w).run];
                row.heartbeat == Some(at) && row.lease == Some(at + 30_000)
      ensures forall r | 0 <= r < |runs| ::
                runs[r].status == old(runs)[r].status && runs[r].worker == old(runs)[r].worker
    {
      hide WF, RunOk, EntryOk;
      Frames.JobIsOk(View(), w);
      var r := jobs[w].run;
      if runs[r].worker == Some(w) {
        runs := runs[r := runs[r].(heartbeat := Some(at), lease := Some(at + LEASE))];
      }
    }

    /** Closes the run of an approval that was already consumed, by the record found before; nothing is called. */
    method SettleConsumed(w: WorkerId)
      requires Valid() && JobOf(View(), w).Settling?
      modifies this
      ensures View() == DoSettle(old(View()), w)
      ensures Valid()
      ensures calls == old(calls)
      ensures
        var job := JobOf(old(View()), w);
        && job.run < |runs| == |old(runs)|
        && (job.found == Some(Succeeded) && old(runs)[job.run].status == Executing ==>
              runs[job.run].status == Completed && executions == old(executions))
        && (job.found in {Some(Ambiguous), Some(InFlight)} && old(runs)[job.run].status == Executing ==>
              runs[job.run].status == Failed)
        && (job.found == Some(InFlight) ==> executions == old(executions)[job.approval := Ambiguous])
        && forall r | 0 <= r < |runs| && (r != job.run || old(runs)[r].status != Executing) :: runs[r] == old(runs)[r]
    {
      hide WF, RunOk, EntryOk;
      Frames.JobIsOk(View(), w);
      var job := jobs[w];
      if job.found == None && job.approval in executions {
        jobs := jobs[w := Idle];
        return;
      }
      if job.found == None || job.found.value == InFlight {
        executions := executions[job.approval := Ambiguous];
      }
      if runs[job.run].status == Executing {
        runs := runs[job.run := runs[job.run].(status := if job.found == Some(Succeeded) then Completed else Failed)];
      }
      jobs := jobs[w := Acking(job.entry)];
    }

    /** The final write of a worker, with no guard on the row. */
    method FinishRun(w: WorkerId, status: RunStatus, written: bool)
      requires Valid() && JobOf(View(), w).Coordinates()
      requires MayFinish(JobOf(View(), w), status) && (written || JobOf(View(), w).seen == status)
      modifies this
      ensures View() == DoFinish(old(View()), w, status, written)
      ensures Valid()
      ensures JobOf(View(), w) == Acking(JobOf(old(View()), w).entry)
      ensures |runs| == |old(runs)|
      ensures forall r | 0 <= r < |runs| ::
                && runs[r].worker == old(runs)[r].worker && runs[r].lease == old(runs)[r].lease
                && (r != JobOf(old(View()), w).run ==> runs[r] == old(runs)[r])
                && (r == JobOf(old(View()), w).run && written ==> runs[r].status == status)
    {
      hide WF, RunOk, EntryOk, MayFinish;
      Frames.JobIsOk(View(), w);
      var job := jobs[w];
      var row := runs[job.run].(heartbeat := Some(now));
      if written {
        row := row.(status := status);
      }
      runs := runs[job.run := row];
      jobs := jobs[w := Acking(job.entry)];
    }

    // -------------------------------------------------------------------------------------------
    // Scheduler
    // -------------------------------------------------------------------------------------------

    method SelectUnprocessed(limit: nat) returns (ms: seq<MsgId>)
      ensures ms == FirstUnprocessed(outbox, 0, limit)
    {
      ms := [];
      var m := 0;
      while m < |outbox| && |ms| < limit
        invariant 0 <= m <= |outbox| && |ms| <= limit
        invariant FirstUnprocessed(outbox, 0, limit) == ms + FirstUnprocessed(outbox, m, limit - |ms|)
      {
        if !outbox[m].processed {
          ms := ms + [m];
        }
        m := m + 1;
      }
    }

    /** Tries to publish row `m`; the row records the attempt, and only an answered XADD marks it. */
    method PublishRow(m: MsgId, fate: Fate) returns (sent: bool)
      requires m < |outbox| && !outbox[m].processed
      modifies this`outbox, this`stream
      ensures
        var row := old(outbox)[m];
        var due := row.attempts <= 10 && (row.notBefore == None || row.notBefore.value <= now);
        && (sent <==> due && fate.Answered?)
        && |outbox| == |old(outbox)| && outbox[m].processed == sent
        && outbox[m].attempts == row.attempts + (if due then 1 else 0)
        && |stream| == |old(stream)| + if due && !fate.NotAdded? then 1 else 0
      ensures outbox == if Publishable(old(View()), old(outbox)[m]) then old(outbox)[m := Marked(old(outbox)[m], sent)]
                        else old(outbox)
      ensures stream == if Publishable(old(View()), old(outbox)[m]) && !fate.NotAdded?
                        then old(stream) + [NewEntry(old(outbox)[m].run, Some(m), now)] else old(stream)
    {
      var row := outbox[m];
      sent := false;
      if row.attempts <= MAX_ATTEMPTS && (row.notBefore == None || row.notBefore.value <= now) {
        if !fate.NotAdded? {
          stream := stream + [NewEntry(row.run, Some(m), now)];
        }
        if fate.Answered? {
          row := row.(processed := true);
          sent := true;
        }
        row := row.(attempts := row.attempts + 1);
        outbox := outbox[m := row];
      }
    }

    /**
    One publishing round over the head of the outbox.  When the commit at its end fails, the entries stay in the stream
    and every row of the round is as before.
    */
    method PublishOutbox(fates: MsgId -> Fate, committed: bool) returns (published: nat)
      requires Valid() && batch == map[] && scan == map[]
      modifies this
      ensures View() == Exec(old(View()), PublishRound(FirstUnprocessed(old(outbox), 0, 20), fates)
                                          + [Scheduler(if committed then CommitPublished else Restart)])
      ensures Valid()
      ensures |outbox| == |old(outbox)| && |stream| >= |old(stream)| + published
      ensures !committed ==> outbox == old(outbox)
      ensures committed ==>
                forall m | 0 <= m < |outbox| ::
                  outbox[m].processed <==>
                    || old(outbox)[m].processed
                    || (m in FirstUnprocessed(old(outbox), 0, 20) && Publishable(old(View()), old(outbox)[m]) &&
                        fates(m).Answered?)
    {
      hide WF, Exec, Step, FirstUnprocessed, MidRound, RowAfter, Publishable, Marked, PublishRound;
      var rows := SelectUnprocessed(20);
      var before := outbox;
      published := 0;
      ghost var s := View();
      FirstUnprocessedAreInOrder(s.outbox, 0, 20);
      ghost var g := s;
      ExecNone(s);
      RoundStarts(s, fates);
      var i := 0;
      while i < |rows|
        invariant 0 <= i <= |rows|
        invariant WF(g) && g == Exec(s, PublishRound(rows[..i], fates))
        invariant View() == g.(outbox := outbox, batch := map[])
        invariant MidRound(s, g, rows[..i], fates, outbox) && |stream| >= |s.stream| + published
        invariant scan == map[]
      {
        var m := rows[i];
        assert rows[..i + 1] == rows[..i] + [m];
        RoundGrows(rows[..i], fates, m);
        ghost var act := PublishAct(m, fates(m));
        ExecMore(s, PublishRound(rows[..i], fates), act);
        PublishStep(s, g, rows[..i], fates, outbox, m, View());
        var sent := PublishRow(m, fates(m));
        g := Step(g, act);
        if sent {
          published := published + 1;
        }
        i := i + 1;
      }
      assert rows[..|rows|] == rows;
      RoundEnds(s, g, rows, fates, outbox);
      ExecMore(s, PublishRound(rows, fates), Scheduler(if committed then CommitPublished else Restart));
      CommitStep(s, g, rows, fates, outbox);
      RestartStep(s, g, rows, fates, outbox);
      if !committed {
        outbox := before;
      }
    }

    /** The select that opens a recovery round; it takes no lock. */
    method ScanExecuting()
      requires Valid()
      modifies this`scan, this`scanAt
      ensures View() == DoScan(old(View()))
      ensures Valid()
      ensures scan.Keys == set r | 0 <= r < |runs| && runs[r].status == Executing
    {
      hide WF, RunOk, EntryOk, JobOk;
      scan := map r | 0 <= r < |runs| && runs[r].status == Executing :: runs[r];
      scanAt := now;
    }

    /** Recovers run `r` as it was selected, over whatever the row says now. */
    method RecoverScanned(r: RunId, dlqUp: bool) returns (stuck: bool)
      requires Valid() && r in scan
      modifies this
      ensures View() == DoRecover(old(View()), r, dlqUp)
      ensures Valid()
      ensures
        var row := old(scan)[r];
        stuck <==>
          || (row.heartbeat.Some? && row.heartbeat.value + 900_000 < old(scanAt))
          || (row.lease.Some? && row.lease.value < now)
      ensures !stuck ==> runs == old(runs) && outbox == old(outbox) && deadLetters == old(deadLetters)
      ensures stuck ==> r < |old(runs)| <= |runs| && runs[r].status == Failed && runs[r].worker == old(runs)[r].worker
    {
      hide WF, RunOk, EntryOk, JobOk;
      Frames.ScanIsOk(View(), r);
      var row := scan[r];
      scan := scan - {r};
      var late := row.heartbeat != None && row.heartbeat.value + STUCK_AFTER < scanAt;
      var expired := row.lease != None && row.lease.value < now;
      stuck := late || expired;
      if stuck {
        var retry := row.retryCount + 1;
        runs := runs[r := runs[r].(status := Failed, heartbeat := Some(now), retryCount := retry)];
        if retry > MAX_RETRIES {
          if dlqUp {
            deadLetters := deadLetters + [r];
          }
        } else {
          var backoff := Backoff(retry);
          var id := |runs|;
          runs := runs + [Run(Queued, None, None, None, retry, row.root, retry, |outbox|)];
          outbox := outbox + [NewRow(id, RecoverKey(r, id), Some(now + backoff), now)];
        }
      }
    }

    /** Recovers run `r` if it is stuck: the row is failed and, within the retry budget, a successor is queued. */
    method RecoverRun(r: RunId, dlqUp: bool) returns (stuck: bool)
      requires r < |runs| && scan == map[]
      modifies this
      ensures RecoverOutcome(old(View()), r, dlqUp, View())
      ensures
        var row := old(runs)[r];
        stuck <==>
          && row.status == Executing
          && ((row.heartbeat.Some? && row.heartbeat.value + 900_000 < now) ||
              (row.lease.Some? && row.lease.value < now))
      ensures !stuck ==> runs == old(runs) && outbox == old(outbox) && deadLetters == old(deadLetters)
      ensures stuck ==> runs[r].status == Failed && runs[r].retryCount == old(runs)[r].retryCount + 1
      ensures stuck <==> old(runs)[r] != AfterRecovery(old(runs)[r], now)
    {
      var row := runs[r];
      var late := row.heartbeat != None && row.heartbeat.value + STUCK_AFTER < now;
      var expired := row.lease != None && row.lease.value < now;
      stuck := row.status == Executing && (late || expired);
      if stuck {
        var retry := row.retryCount + 1;
        runs := runs[r := row.(status := Failed, heartbeat := Some(now), retryCount := retry)];
        if retry > MAX_RETRIES {
          if dlqUp {
            deadLetters := deadLetters + [r];
          }
        } else {
          var backoff := Backoff(retry);
          var id := |runs|;
          runs := runs + [Run(Queued, None, None, None, retry, row.root, retry, |outbox|)];
          outbox := outbox + [NewRow(id, RecoverKey(r, id), Some(now + backoff), now)];
        }
      }
      assert scan - {r} == scan;
    }

    /** A recovery round over the executing runs. `dlqUp` says whether the dead-letter stream is reachable. */
    method RecoverStuckRuns(dlqUp: bool) returns (recovered: nat)
      requires Valid() && scan == map[]
      modifies this
      ensures View() == Exec(old(View()), RecoveryRound(|old(runs)|, dlqUp))
      ensures Valid()
      ensures |old(runs)| <= |runs|
      ensures forall r | 0 <= r < |old(runs)| ::
                var row := old(runs)[r];
                if row.status == Executing && ((row.heartbeat.Some? && row.heartbeat.value + 900_000 < now) ||
                                               (row.lease.Some? && row.lease.value < now)) then
                  runs[r] == row.(status := Failed, heartbeat := Some(now), retryCount := row.retryCount + 1)
                else runs[r] == row
      ensures recovered == |set r | 0 <= r < |old(runs)| && runs[r] != old(runs)[r]|
    {
      hide WF, Exec, Step, MidRecovery, AfterRecovery, RecoverOutcome, StuckRow;
      ghost var s := View();
      scanAt := now;
      recovered := 0;
      ExecNone(s);
      ExecMore(s, [], Scheduler(Scan));
      assert [] + [Scheduler(Scan)] == [Scheduler(Scan)];
      ghost var g := Step(s, Scheduler(Scan));
      var n := |runs|;
      var r := 0;
      ScanStep(s);
      while r < n
        invariant 0 <= r <= n == |s.runs|
        invariant WF(g) && g == Exec(s, RecoveryRound(r, dlqUp)) && View() == g.(scan := map[])
        invariant MidRecovery(s, g, r) && now == s.now && recovered == CountStuck(s.runs, r, now)
      {
        ghost var act := Scheduler(Recover(r, dlqUp));
        ExecMore(s, RecoveryRound(r, dlqUp), act);
        RecoverStep(s, g, r, dlqUp);
        var stuck := RecoverRun(r, dlqUp);
        SameOutcome(g, r, dlqUp, Step(g, act), View());
        g := Step(g, act);
        if stuck {
          recovered := recovered + 1;
        }
        r := r + 1;
      }
      RecoveryEnds(s, g);
      StuckAreChanged(s.runs, |s.runs|, runs, now);
      forall r | 0 <= r < |s.runs| { StuckMeans(s.runs[r], now); }
    }

    // -------------------------------------------------------------------------------------------
    // The stream
    // -------------------------------------------------------------------------------------------

    /** XREADGROUP: the group hands out an entry that nobody was given yet. */
    method ReadGroup(w: WorkerId, e: EntryId) returns (got: bool)
      requires Valid() && JobOf(View(), w).Idle?
      modifies this
      ensures View() == DoRead(old(View()), w, e)
      ensures Valid()
      ensures got <==> e < |old(stream)| && !old(stream)[e].delivered
    {
      hide WF, RunOk, EntryOk, JobOk;
      if e >= |stream| || stream[e].delivered {
        return false;
      }
      stream := stream[e := stream[e].(delivered := true, idleSince := now)];
      jobs := jobs[w := Got(e)];
      return true;
    }

    /** XACK, after the entry was handled without an exception. */
    method AckEntry(w: WorkerId)
      requires Valid() && JobOf(View(), w).Acking?
      modifies this
      ensures View() == DoAck(old(View()), w)
      ensures Valid()
      ensures JobOf(View(), w).Idle? && JobOf(old(View()), w).entry < |stream| == |old(stream)|
      ensures stream[JobOf(old(View()), w).entry].acked
      ensures forall e | 0 <= e < |stream| && e != JobOf(old(View()), w).entry :: stream[e] == old(stream)[e]
    {
      hide WF, RunOk, EntryOk;
      Frames.JobIsOk(View(), w);
      var e := jobs[w].entry;
      stream := stream[e := stream[e].(acked := true)];
      jobs := jobs[w := Idle];
    }

    /** XPENDING then XCLAIM over the oldest `count` pending entries that were idle long enough. */
    method ClaimPending(count: nat) returns (reclaimed: seq<EntryId>)
      modifies this`stream
      ensures |stream| == |old(stream)|
      ensures forall e | 0 <= e < |stream| ::
                stream[e] == if e in reclaimed then old(stream)[e].(idleSince := now) else old(stream)[e]
      ensures forall e | e in reclaimed ::
                e < |stream| && old(stream)[e].delivered && !old(stream)[e].acked &&
                old(stream)[e].idleSince + 30_000 <= now
      ensures |reclaimed| <= count
    {
      reclaimed := [];
      var seen, e := 0, 0;
      while e < |stream| && seen < count
        invariant 0 <= e <= |stream| == |old(stream)| && |reclaimed| <= seen <= count
        invariant forall k | 0 <= k < |stream| ::
                    stream[k] == if k in reclaimed then old(stream)[k].(idleSince := now) else old(stream)[k]
        invariant forall k | k in reclaimed ::
                    k < e && old(stream)[k].delivered && !old(stream)[k].acked &&
                    old(stream)[k].idleSince + MIN_IDLE <= now
      {
        if stream[e].delivered && !stream[e].acked {
          seen := seen + 1;
          if stream[e].idleSince + MIN_IDLE <= now {
            stream := stream[e := stream[e].(idleSince := now)];
            reclaimed := reclaimed + [e];
          }
        }
        e := e + 1;
      }
    }
  }

  // ---------------------------------------------------------------------------------------------
  // Publishing rounds
  // ---------------------------------------------------------------------------------------------

  /** In the middle of a round: the rows `done` were tried, the others are as before. */
  ghost predicate MidRound(s: State, g: State, done: seq<MsgId>, up: MsgId -> Fate, outbox: seq<OutboxRow>) {
    && g.outbox == s.outbox && |outbox| == |s.outbox| && g.now == s.now
    && (forall m | 0 <= m < |outbox| :: outbox[m] == RowAfter(s, done, up, m))
    && (forall m :: m in g.batch <==> m in done && m < |s.outbox| && Publishable(s, s.outbox[m]))
    && (forall m | m in g.batch :: g.batch[m] == up(m).Answered?)
  }

  function RowAfter(s: State, done: seq<MsgId>, up: MsgId -> Fate, m: MsgId): (row: OutboxRow)
    requires m < |s.outbox|
  {
    if m in done && Publishable(s, s.outbox[m]) then Marked(s.outbox[m], up(m).Answered?) else s.outbox[m]
  }

  lemma RoundGrows(ms: seq<MsgId>, up: MsgId -> Fate, m: MsgId)
    ensures PublishRound(ms + [m], up) == PublishRound(ms, up) + [PublishAct(m, up(m))]
  {
    assert (ms + [m])[..|ms|] == ms;
  }

  lemma RoundStarts(s: State, up: MsgId -> Fate)
    requires s.batch == map[]
    ensures PublishRound([], up) == []
    ensures MidRound(s, s, [], up, s.outbox)
  {
  }

  lemma RoundEnds(s: State, g: State, done: seq<MsgId>, up: MsgId -> Fate, outbox: seq<OutboxRow>)
    requires MidRound(s, g, done, up, outbox)
    ensures |outbox| == |s.outbox|
    ensures forall m | 0 <= m < |outbox| ::
              outbox[m].processed <==>
                s.outbox[m].processed || (m in done && Publishable(s, s.outbox[m]) && up(m).Answered?)
  {
  }

  lemma PublishStep(s: State, g: State, done: seq<MsgId>, up: MsgId -> Fate, outbox: seq<OutboxRow>, m: MsgId, v: State)
    requires WF(g) && MidRound(s, g, done, up, outbox)
    requires m < |s.outbox| && m !in done && v.now == g.now
    ensures Publishable(v, s.outbox[m]) == Publishable(s, s.outbox[m])
    ensures |outbox| == |s.outbox| && outbox[m] == s.outbox[m] && g.now == s.now
    ensures
      var g' := Step(g, PublishAct(m, up(m)));
      var due := Publishable(s, s.outbox[m]);
      && MidRound(s, g', done + [m], up, if due then outbox[m := Marked(outbox[m], up(m).Answered?)] else outbox)
      && g' == g.(batch := g'.batch,
                  stream := if due && !up(m).NotAdded? then g.stream + [NewEntry(s.outbox[m].run, Some(m), s.now)]
                            else g.stream)
  {
    hide WF;
    assert Publishable(g, g.outbox[m]) == Publishable(s, s.outbox[m]);
  }

  lemma CommitStep(s: State, g: State, done: seq<MsgId>, up: MsgId -> Fate, outbox: seq<OutboxRow>)
    requires WF(g) && MidRound(s, g, done, up, outbox)
    ensures Step(g, Scheduler(CommitPublished)) == g.(outbox := outbox, batch := map[])
  {
    hide WF, Publishable;
    assert DoCommitPublished(g).outbox == outbox;
  }

  lemma RestartStep(s: State, g: State, done: seq<MsgId>, up: MsgId -> Fate, outbox: seq<OutboxRow>)
    requires WF(g) && MidRound(s, g, done, up, outbox) && g.scan == map[]
    ensures Step(g, Scheduler(Restart)) == g.(outbox := s.outbox, batch := map[])
  {
    hide WF, Publishable;
  }

  // ---------------------------------------------------------------------------------------------
  // Recovery rounds
  // ---------------------------------------------------------------------------------------------

  function AfterRecovery(row: Run, now: Time): (row': Run) {
    if row.status == Executing && StuckRow(row, now, now) then
      row.(status := Failed, heartbeat := Some(now), retryCount := row.retryCount + 1)
    else row
  }

  /** How many of the first `n` runs recovery finds stuck. */
  function CountStuck(runs: seq<Run>, n: nat, now: Time): (c: nat)
    requires n <= |runs|
  {
    if n == 0 then 0
    else CountStuck(runs, n - 1, now) + if runs[n - 1] != AfterRecovery(runs[n - 1], now) then 1 else 0
  }

  lemma StuckMeans(row: Run, now: Time)
    ensures AfterRecovery(row, now) ==
            if row.status == Executing && ((row.heartbeat.Some? && row.heartbeat.value + 900_000 < now) ||
                                           (row.lease.Some? && row.lease.value < now)) then
              row.(status := Failed, heartbeat := Some(now), retryCount := row.retryCount + 1)
            else row
  {
  }

  lemma {:induction false} StuckAreChanged(was: seq<Run>, n: nat, runs: seq<Run>, now: Time)
    requires n <= |was| <= |runs| && forall r | 0 <= r < |was| :: runs[r] == AfterRecovery(was[r], now)
    ensures CountStuck(was, n, now) == |set r | 0 <= r < n && runs[r] != was[r]|
  {
    if n > 0 {
      hide AfterRecovery;
      StuckAreChanged(was, n - 1, runs, now);
      var before, all := set r | 0 <= r < n - 1 && runs[r] != was[r], set r | 0 <= r < n && runs[r] != was[r];
      assert all == before + if runs[n - 1] != was[n - 1] then {n - 1} else {};
    }
  }

  /** In the middle of a round: the runs below `r` were looked at. */
  ghost predicate MidRecovery(s: State, g: State, r: nat) {
    && r <= |s.runs| <= |g.runs|
    && g.now == s.now && g.scanAt == s.now
    && g.scan.Keys == (set q | r <= q < |s.runs| && s.runs[q].status == Executing)
    && (forall q | q in g.scan :: g.scan[q] == s.runs[q])
    && (forall q | r <= q < |s.runs| :: g.runs[q] == s.runs[q])
    && (forall q | 0 <= q < r :: g.runs[q] == AfterRecovery(s.runs[q], s.now))
  }

  lemma ScanStep(s: State)
    requires WF(s)
    ensures var g := Step(s, Scheduler(Scan)); MidRecovery(s, g, 0) && g == s.(scan := g.scan, scanAt := s.now)
  {
    hide WF;
  }

  /** What one step of the round does to the row as it is. */
  ghost predicate RecoverOutcome(g: State, r: RunId, dlqUp: bool, g': State)
    requires r < |g.runs|
  {
    var row := g.runs[r];
    var retry := row.retryCount + 1;
    && g' == g.(scan := g.scan - {r}, runs := g'.runs, outbox := g'.outbox, deadLetters := g'.deadLetters)
    && if row.status == Executing && StuckRow(row, g.now, g.now) then
         && g'.runs == g.runs[r := row.(status := Failed, heartbeat := Some(g.now), retryCount := retry)] +
            (if retry > MAX_RETRIES then []
             else [Run(Queued, None, None, None, retry, row.root, retry, |g.outbox|)])
         && g'.outbox == g.outbox +
            (if retry > MAX_RETRIES then []
             else [NewRow(|g.runs|, RecoverKey(r, |g.runs|), Some(g.now + Backoff(retry)), g.now)])
         && g'.deadLetters == g.deadLetters + (if retry > MAX_RETRIES && dlqUp then [r] else [])
       else g'.runs == g.runs && g'.outbox == g.outbox && g'.deadLetters == g.deadLetters
  }

  lemma RecoverResult(g: State, r: RunId, dlqUp: bool)
    requires WF(g) && r < |g.runs| && g.scanAt == g.now
    requires if r in g.scan then g.scan[r] == g.runs[r] && g.runs[r].status == Executing
             else g.runs[r].status != Executing
    ensures RecoverOutcome(g, r, dlqUp, Step(g, Scheduler(Recover(r, dlqUp))))
  {
    hide WF, RunOk, JobOk, EntryOk, StuckRow;
    if r !in g.scan { assert g.scan - {r} == g.scan; }
  }

  lemma RecoverStep(s: State, g: State, r: nat, dlqUp: bool)
    requires WF(g) && MidRecovery(s, g, r) && r < |s.runs|
    ensures r < |g.runs| && g.now == s.now && g.runs[r] == s.runs[r]
    ensures MidRecovery(s, Step(g, Scheduler(Recover(r, dlqUp))), r + 1)
    ensures RecoverOutcome(g, r, dlqUp, Step(g, Scheduler(Recover(r, dlqUp))))
  {
    hide WF, Step;
    assert r in g.scan.Keys <==> g.runs[r].status == Executing;
    RecoverResult(g, r, dlqUp);
    var g' := Step(g, Scheduler(Recover(r, dlqUp)));
    assert g'.scan.Keys == g.scan.Keys - {r};
    assert g'.runs[r] == AfterRecovery(s.runs[r], s.now);
  }

  /** The outcome does not depend on the rest of the scan. */
  lemma SameOutcome(g: State, r: RunId, dlqUp: bool, g': State, v': State)
    requires r < |g.runs| && RecoverOutcome(g, r, dlqUp, g') && RecoverOutcome(g.(scan := map[]), r, dlqUp, v')
    ensures v' == g'.(scan := map[])
  {
    hide StuckRow;
    var none: map<RunId, Run> := map[];
    assert none - {r} == none;
  }

  lemma RecoveryEnds(s: State, g: State)
    requires MidRecovery(s, g, |s.runs|)
    ensures g.scan == map[] && |s.runs| <= |g.runs|
    ensures forall r | 0 <= r < |s.runs| :: g.runs[r] == AfterRecovery(s.runs[r], s.now)
  {
    assert g.scan.Keys == {};
  }
}
