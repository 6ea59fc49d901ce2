/**
Automatic recovery is bounded: it conserves a weight that is at least one per run, and every requeue waits for its
backoff.
*/
module Recovery {
  import opened Types
  import opened Protocol
  import opened Frames

  /** What a run with this retry count can still grow into: 8, 4, 2, then 1 for ever. */
  function Weight(retryCount: nat): (x: nat)
    ensures 1 <= x <= 8
    ensures x == if retryCount == 0 then 8 else if retryCount == 1 then 4 else if retryCount == 2 then 2 else 1
  {
    if retryCount >= MAX_RETRIES then 1
    else if retryCount == 2 then 2
    else if retryCount == 1 then 4
    else 8
  }

  function Share(row: Run, root: RunId): (x: nat) {
    if row.root == root then Weight(row.retryCount) else 0
  }

  /** The weight of the family of `root`: the submitted run and its automatic retries. */
  function Total(runs: seq<Run>, root: RunId): (x: nat) {
    if runs == [] then 0 else Total(runs[..|runs| - 1], root) + Share(runs[|runs| - 1], root)
  }

  /** The number of runs in the family of `root`. */
  function Family(runs: seq<Run>, root: RunId): (n: nat) {
    if runs == [] then 0
    else Family(runs[..|runs| - 1], root) + if runs[|runs| - 1].root == root then 1 else 0
  }

  lemma {:induction false} FamilyWithinTotal(runs: seq<Run>, root: RunId)
    ensures Family(runs, root) <= Total(runs, root)
  {
    if runs != [] {
      FamilyWithinTotal(runs[..|runs| - 1], root);
    }
  }

  lemma TotalAppend(runs: seq<Run>, row: Run, root: RunId)
    ensures Total(runs + [row], root) == Total(runs, root) + Share(row, root)
  {
    assert (runs + [row])[..|runs|] == runs;
  }

  lemma {:induction false} TotalUpdate(runs: seq<Run>, r: RunId, row: Run, root: RunId)
    requires r < |runs|
    ensures Total(runs[r := row], root) == Total(runs, root) - Share(runs[r], root) + Share(row, root)
  {
    var last := |runs| - 1;
    if r == last {
      assert runs[r := row][..last] == runs[..last];
    } else {
      assert runs[r := row][..last] == runs[..last][r := row];
      TotalUpdate(runs[..last], r, row, root);
    }
  }

  lemma {:induction false} TotalSame(runs1: seq<Run>, runs2: seq<Run>, root: RunId)
    requires |runs1| == |runs2|
    requires forall r | 0 <= r < |runs1| :: runs1[r].root == runs2[r].root && runs1[r].retryCount == runs2[r].retryCount
    ensures Total(runs1, root) == Total(runs2, root)
  {
    if runs1 != [] {
      TotalSame(runs1[..|runs1| - 1], runs2[..|runs2| - 1], root);
    }
  }

  lemma {:induction false} TotalOfNobody(runs: seq<Run>, root: RunId)
    requires forall r | 0 <= r < |runs| :: runs[r].root != root
    ensures Total(runs, root) == 0
  {
    if runs != [] {
      TotalOfNobody(runs[..|runs| - 1], root);
    }
  }

  // ---------------------------------------------------------------------------------------------
  // Conservation
  // ---------------------------------------------------------------------------------------------

  predicate RootOk(s: State, row: Run) {
    row.root < |s.runs| && s.runs[row.root].root == row.root
  }

  predicate ScanOk(s: State, r: RunId, row: Run) {
    r < |s.runs| && s.runs[r].retryCount == row.retryCount && s.runs[r].root == row.root
  }

  predicate Conserved(s: State, root: RunId)
    requires root < |s.runs|
  {
    s.runs[root].root == root ==> Total(s.runs, root) == Weight(s.runs[root].born)
  }

  predicate WeightInv(s: State) {
    && (forall r | 0 <= r < |s.runs| :: RootOk(s, s.runs[r]))
    && (forall r | r in s.scan :: ScanOk(s, r, s.scan[r]))
    && (forall root | 0 <= root < |s.runs| :: Conserved(s, root))
  }

  /** Rows keep their family, and their retry count unless recovered. */
  predicate SameFamilies(s: State, s': State) {
    && |s.runs| == |s'.runs|
    && (forall r | 0 <= r < |s.runs| ::
          s'.runs[r].root == s.runs[r].root && s'.runs[r].born == s.runs[r].born &&
          s'.runs[r].retryCount == s.runs[r].retryCount)
  }

  lemma SameFamiliesKeep(s: State, s': State)
    requires WeightInv(s) && SameFamilies(s, s')
    requires forall r | r in s'.scan :: ScanOk(s', r, s'.scan[r])
    ensures WeightInv(s')
  {
    forall root | 0 <= root < |s'.runs| ensures Conserved(s', root) {
      assert Conserved(s, root);
      TotalSame(s.runs, s'.runs, root);
    }
    forall r | 0 <= r < |s'.runs| ensures RootOk(s', s'.runs[r]) {
      assert RootOk(s, s.runs[r]);
    }
  }

  lemma EnqueueKeeps(s: State, key: OutboxKey, retryCount: nat)
    requires WF(s) && WeightInv(s)
    ensures WeightInv(Enqueue(s, key, None, retryCount, |s.runs|))
  {
    hide WF;
    var s' := Enqueue(s, key, None, retryCount, |s.runs|);
    forall r | 0 <= r < |s'.runs| ensures RootOk(s', s'.runs[r]) && Conserved(s', r) {
      TotalAppend(s.runs, s'.runs[|s.runs|], r);
      if r < |s.runs| {
        assert RootOk(s, s.runs[r]) && Conserved(s, r);
      } else {
        forall q | 0 <= q < |s.runs| ensures s.runs[q].root != r { assert RootOk(s, s.runs[q]); }
        TotalOfNobody(s.runs, r);
      }
    }
    forall r | r in s'.scan ensures ScanOk(s', r, s'.scan[r]) { assert ScanOk(s, r, s.scan[r]); }
  }

  /** What recovery writes: nothing, the recovered row alone, or the recovered row and its successor. */
  predicate Recovered(s: State, r: RunId, s': State)
    requires r < |s.runs| && r in s.scan
  {
    var retry := s.scan[r].retryCount + 1;
    var row := s.runs[r].(status := Failed, heartbeat := Some(s.now), retryCount := retry);
    var next := Run(Queued, None, None, None, retry, s.scan[r].root, retry, |s.outbox|);
    && s'.scan == s.scan - {r}
    && (|| s'.runs == s.runs
        || (retry > MAX_RETRIES && s'.runs == s.runs[r := row])
        || (retry <= MAX_RETRIES && s'.runs == s.runs[r := row] + [next]))
  }

  lemma RecoverShape(s: State, r: RunId, dlqUp: bool)
    requires WF(s) && r in s.scan
    ensures r < |s.runs| && Recovered(s, r, DoRecover(s, r, dlqUp))
  {
    hide WF, StuckRow, RunOk, JobOk, EntryOk;
    ScanIsOk(s, r);
  }

  /** The heart of the matter: one retry halves the weight of the old run and gives the other half to the new one. */
  lemma RecoverConserves(s: State, r: RunId, s': State, root: RunId)
    requires WeightInv(s) && r in s.scan && r < |s.runs| && Recovered(s, r, s') && root < |s.runs|
    ensures Conserved(s', root)
  {
    assert ScanOk(s, r, s.scan[r]) && Conserved(s, root);
    if s'.runs != s.runs {
      var row' := s'.runs[r];
      TotalUpdate(s.runs, r, row', root);
      if |s'.runs| > |s.runs| { TotalAppend(s.runs[r := row'], s'.runs[|s.runs|], root); }
    }
  }

  lemma RecoveredKeeps(s: State, r: RunId, s': State)
    requires WeightInv(s) && r in s.scan && r < |s.runs| && Recovered(s, r, s')
    ensures WeightInv(s')
  {
    assert ScanOk(s, r, s.scan[r]) && RootOk(s, s.runs[r]);
    forall root | 0 <= root < |s'.runs| ensures Conserved(s', root) {
      if root < |s.runs| { RecoverConserves(s, r, s', root); }
    }
    hide Conserved;
    forall q | 0 <= q < |s'.runs| ensures RootOk(s', s'.runs[q]) {
      if q < |s.runs| { assert RootOk(s, s.runs[q]); }
    }
    forall q | q in s'.scan ensures ScanOk(s', q, s'.scan[q]) { assert ScanOk(s, q, s.scan[q]); }
  }

  lemma RecoverKeeps(s: State, r: RunId, dlqUp: bool)
    requires WF(s) && WeightInv(s)
    ensures WeightInv(DoRecover(s, r, dlqUp))
  {
    if r in s.scan {
      hide WF, WeightInv, DoRecover, Recovered;
      RecoverShape(s, r, dlqUp);
      RecoveredKeeps(s, r, DoRecover(s, r, dlqUp));
    }
  }

  lemma SchedulerKeeps(s: State, act: SchedulerAction)
    requires WF(s) && WeightInv(s)
    ensures WeightInv(SchedulerStep(s, act))
  {
    hide WF, WeightInv, Publishable;
    match act
    case Recover(r, dlqUp) => RecoverKeeps(s, r, dlqUp);
    case Publish(_, _, _) => ScanStays(s, SchedulerStep(s, act));
    case CommitPublished => ScanStays(s, SchedulerStep(s, act));
    case Scan =>
      var s' := SchedulerStep(s, act);
      SameFamiliesKeep(s, s');
    case Restart => SameFamiliesKeep(s, SchedulerStep(s, act));
  }

  lemma ScanStays(s: State, s': State)
    requires WeightInv(s) && SameFamilies(s, s') && s'.scan == s.scan
    ensures WeightInv(s')
  {
    forall r | r in s'.scan ensures ScanOk(s', r, s'.scan[r]) { assert ScanOk(s, r, s.scan[r]); }
    SameFamiliesKeep(s, s');
  }

  lemma OtherStepKeeps(s: State, act: Action)
    requires WF(s) && WeightInv(s) && !act.Scheduler? && !(act.Api? && act.api.CreateRun?)
    ensures WeightInv(Step(s, act))
  {
    hide WF, Step, WeightInv;
    var s' := Step(s, act);
    RunsMove(s, act);
    ScanMoves(s, act);
    forall r | 0 <= r < |s.runs|
      ensures s'.runs[r].root == s.runs[r].root && s'.runs[r].born == s.runs[r].born &&
              s'.runs[r].retryCount == s.runs[r].retryCount
    {
      assert MovedRun(s, act, r, s');
    }
    ScanStays(s, s');
  }

  lemma ScanMoves(s: State, act: Action)
    requires WF(s) && !act.Scheduler?
    ensures Step(s, act).scan == s.scan
  {
    hide WF, WorkerStep, RunOk, JobOk, EntryOk;
    if act.Worker? { WorkerKeepsTables(s, act.worker, act.act); }
  }

  lemma WeightKeeps(s: State, act: Action)
    requires WF(s) && WeightInv(s)
    ensures WeightInv(Step(s, act))
  {
    hide WF, WeightInv, SchedulerStep;
    match act
    case Scheduler(a) => SchedulerKeeps(s, a);
    case Api(CreateRun(origin)) => CreateKeeps(s, origin);
    case _ => OtherStepKeeps(s, act);
  }

  lemma CreateKeeps(s: State, origin: Origin)
    requires WF(s) && WeightInv(s)
    ensures WeightInv(DoCreateRun(s, origin))
  {
    hide WF, WeightInv, KeyUsed, Enqueue;
    match origin
    case FromTask(k) => EnqueueKeeps(s, TaskKey(k), 0);
    case FromSource => EnqueueKeeps(s, RunKey(|s.runs|), 0);
    case FromRetry(source, k) =>
      if source < |s.runs| { EnqueueKeeps(s, RetryKey(source, k), s.runs[source].retryCount + 1); }
  }

  lemma {:induction false} WeightAt(acts: seq<Action>, n: nat)
    requires n <= |acts|
    ensures WeightInv(At(acts, n))
  {
    hide WF;
    if n > 0 {
      hide WeightInv;
      WeightAt(acts, n - 1);
      AtNext(acts, n - 1);
      WeightKeeps(At(acts, n - 1), acts[n - 1]);
    }
  }

  /**
  In every reachable state the family of a submitted run weighs exactly what the run weighed when it was created, so
  recovery never makes more than eight runs out of one, even when late workers bring recovered runs back to life.
  */
  lemma {:induction false} RecoveryIsBounded(acts: seq<Action>, r: RunId)
    requires r < |Exec(Init(), acts).runs|
    ensures
      var s := Exec(Init(), acts);
      var root := s.runs[r].root;
      && root < |s.runs|
      && Total(s.runs, root) == Weight(s.runs[root].born)
      && 1 <= Family(s.runs, root) <= Weight(s.runs[root].born) <= 8
  {
    assert acts[..|acts|] == acts;
    WeightAt(acts, |acts|);
    var s := Exec(Init(), acts);
    hide WF;
    assert RootOk(s, s.runs[r]) && Conserved(s, s.runs[r].root);
    FamilyWithinTotal(s.runs, s.runs[r].root);
    FamilyPositive(s.runs, r);
  }

  lemma {:induction false} FamilyPositive(runs: seq<Run>, r: RunId)
    requires r < |runs|
    ensures Family(runs, runs[r].root) >= 1
  {
    if r < |runs| - 1 {
      FamilyPositive(runs[..|runs| - 1], r);
    }
  }

  // ---------------------------------------------------------------------------------------------
  // Backoff
  // ---------------------------------------------------------------------------------------------

  /** The outbox row of an automatic retry may go out 30, 60 or 120 seconds after it was written. */
  predicate WaitsItsBackoff(s: State, row: OutboxRow) {
    row.key.RecoverKey? ==>
      && row.run < |s.runs|
      && var born := s.runs[row.run].born;
         1 <= born <= MAX_RETRIES && row.notBefore == Some(row.createdAt + Backoff(born))
  }

  /** No entry was added before its outbox row was due. */
  predicate AddedInTime(s: State, e: Entry) {
    e.msg.Some? && e.msg.value < |s.outbox| && s.outbox[e.msg.value].notBefore.Some? ==>
      s.outbox[e.msg.value].notBefore.value <= e.addedAt
  }

  predicate BackoffInv(s: State) {
    && (forall m | 0 <= m < |s.outbox| :: WaitsItsBackoff(s, s.outbox[m]))
    && (forall e | 0 <= e < |s.stream| :: AddedInTime(s, s.stream[e]))
  }

  lemma NewRetryRow(s: State, r: RunId, dlqUp: bool)
    requires WF(s) && |s.outbox| < |DoRecover(s, r, dlqUp).outbox|
    ensures WaitsItsBackoff(DoRecover(s, r, dlqUp), DoRecover(s, r, dlqUp).outbox[|s.outbox|])
    ensures DoRecover(s, r, dlqUp).stream == s.stream
  {
    hide WF, RunOk, JobOk, EntryOk, StuckRow;
    if r in s.scan { ScanIsOk(s, r); }
  }

  lemma NewRows(s: State, act: Action)
    requires WF(s) && |s.outbox| < |Step(s, act).outbox|
    ensures WaitsItsBackoff(Step(s, act), Step(s, act).outbox[|s.outbox|])
    ensures Step(s, act).stream == s.stream
  {
    hide WF, WorkerStep, RunOk, JobOk, EntryOk, DoRecover;
    match act
    case Worker(w, a) => WorkerKeepsTables(s, w, a);
    case Scheduler(Recover(r, dlqUp)) => NewRetryRow(s, r, dlqUp);
    case Scheduler(_) =>
    case Api(CreateRun(_)) => hide WaitsItsBackoff; CreatedRow(s, act.api.origin);
    case Api(DecideApproval(a, _)) =>
    case Tick(_) =>
    case ForeignAdd(_) =>
  }

  lemma CreatedRow(s: State, origin: Origin)
    requires WF(s) && |s.outbox| < |DoCreateRun(s, origin).outbox|
    ensures WaitsItsBackoff(DoCreateRun(s, origin), DoCreateRun(s, origin).outbox[|s.outbox|])
    ensures DoCreateRun(s, origin).stream == s.stream
  {
    hide WF, RunOk, JobOk, EntryOk, KeyUsed, Terminal;
  }

  lemma NewEntries(s: State, act: Action, e: EntryId)
    requires WF(s) && |s.stream| <= e < |Step(s, act).stream|
    ensures AddedInTime(Step(s, act), Step(s, act).stream[e])
  {
    hide WF, WorkerStep, RunOk, JobOk, EntryOk, StuckRow;
    match act
    case Worker(w, a) => WorkerMovesStream(s, w, a); WorkerStreamSize(s, w, a);
    case _ =>
  }

  lemma WorkerStreamSize(s: State, w: WorkerId, act: WorkerAction)
    requires WF(s)
    ensures |WorkerStep(s, w, act).stream| == |s.stream|
  {
    hide WF, RunOk, EntryOk, Terminal, Claimable, MayFinish, Latest;
    JobIsOk(s, w);
  }

  lemma BackoffKeeps(s: State, act: Action)
    requires WF(s) && BackoffInv(s)
    ensures BackoffInv(Step(s, act))
  {
    hide WF, Step;
    var s' := Step(s, act);
    RunsMove(s, act);
    StreamMoves(s, act);
    OutboxMoves(s, act);
    forall m | 0 <= m < |s'.outbox| ensures WaitsItsBackoff(s', s'.outbox[m]) {
      if m < |s.outbox| {
        assert MovedRow(s, m, s') && WaitsItsBackoff(s, s.outbox[m]);
        if s.outbox[m].key.RecoverKey? { assert MovedRun(s, act, s.outbox[m].run, s'); }
      } else {
        NewRows(s, act);
      }
    }
    hide WaitsItsBackoff, MovedRun;
    forall e | 0 <= e < |s'.stream| ensures AddedInTime(s', s'.stream[e]) {
      if e < |s.stream| {
        assert MovedEntry(s, act, e, s') && AddedInTime(s, s.stream[e]);
        EntryMessage(s, e);
        if s.stream[e].msg.Some? { assert MovedRow(s, s.stream[e].msg.value, s'); }
      } else {
        NewEntries(s, act, e);
      }
    }
  }

  lemma EntryMessage(s: State, e: EntryId)
    requires WF(s) && e < |s.stream|
    ensures s.stream[e].msg.Some? ==> s.stream[e].msg.value < |s.outbox|
  {
    assert EntryOk(s, s.stream[e]);
  }

  lemma {:induction false} BackoffAt(acts: seq<Action>, n: nat)
    requires n <= |acts|
    ensures BackoffInv(At(acts, n))
  {
    hide WF;
    if n > 0 {
      hide BackoffInv;
      BackoffAt(acts, n - 1);
      AtNext(acts, n - 1);
      BackoffKeeps(At(acts, n - 1), acts[n - 1]);
    }
  }

  /** The first, second and third retry back off 30, 60 and 120 seconds, and no row of them is published earlier. */
  lemma {:induction false} BackoffIsRespected(acts: seq<Action>, e: EntryId)
    requires e < |Exec(Init(), acts).stream|
    ensures
      var s := Exec(Init(), acts);
      var entry := s.stream[e];
      entry.msg.Some? && entry.msg.value < |s.outbox| && s.outbox[entry.msg.value].key.RecoverKey? ==>
        var row := s.outbox[entry.msg.value];
        && row.notBefore.Some?
        && row.run < |s.runs| && 1 <= s.runs[row.run].born <= MAX_RETRIES
        && row.notBefore.value == row.createdAt + Backoff(s.runs[row.run].born)
        && row.notBefore.value <= entry.addedAt
  {
    assert acts[..|acts|] == acts;
    BackoffAt(acts, |acts|);
    var s := Exec(Init(), acts);
    hide WF;
    var entry := s.stream[e];
    assert AddedInTime(s, entry);
    if entry.msg.Some? && entry.msg.value < |s.outbox| { assert WaitsItsBackoff(s, s.outbox[entry.msg.value]); }
  }
}
