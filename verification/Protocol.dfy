/**
The approval, run, lease and outbox protocol as a transition system.

API, scheduler and any number of workers share Postgres rows and one Redis stream.  A step is one database
transaction, one Redis command or one external call.  A row is named by its position in its table, so positions grow
with creation time.  A step whose guard does not hold leaves the state as it is; hence every sequence of actions is a
schedule.
*/
module Protocol {
  import opened Types
  import opened Policy
  import Text

  type WorkerId = nat
  type RunId = nat
  type ApprovalId = nat
  type MsgId = nat
  type EntryId = nat

  const LEASE: Time := 30_000
  const STUCK_AFTER: Time := 900_000
  const APPROVAL_TTL: Time := 3_600_000
  const MIN_IDLE: Time := 30_000
  const MAX_RETRIES: nat := 3
  const MAX_ATTEMPTS: nat := 10

  /**
  A run row.  `root`, `born` and `cover` are history: the run that was submitted and of which this one is an automatic
  retry, the retry count it was created with, and the outbox row committed when the run last became Queued.
  */
  datatype Run = Run(
    status: RunStatus, worker: Option<WorkerId>, heartbeat: Option<Time>, lease: Option<Time>, retryCount: nat,
    root: RunId, born: nat, cover: MsgId)

  datatype ApprovalStatus = Pending | Approved | Rejected | Expired | Consumed

  /** An approval row; `decidedAt`, `consumedAt` and `consumedBy` are history. */
  datatype Approval = Approval(
    run: RunId, tool: string, args: Json, status: ApprovalStatus, expires: Time,
    decidedAt: Option<Time>, consumedAt: Option<Time>, consumedBy: Option<WorkerId>)

  datatype ExStatus = InFlight | Succeeded | ExFailed | Ambiguous

  /** The unique idempotency key of an outbox row. */
  datatype OutboxKey =
    | TaskKey(task: nat)
    | RunKey(run: RunId)
    | RetryKey(source: RunId, key: string)
    | RecoverKey(source: RunId, run: RunId)
    | ApproveKey(approval: ApprovalId)

  datatype OutboxRow = OutboxRow(
    run: RunId, key: OutboxKey, processed: bool, attempts: nat, notBefore: Option<Time>, createdAt: Time)

  /** A stream entry; `passed` is history: some worker holding it went through the claim point. */
  datatype Entry = Entry(
    run: RunId, msg: Option<MsgId>, addedAt: Time, delivered: bool, idleSince: Time, acked: bool, passed: bool)

  /** A call of a registered tool: from a plan, or from a consumed approval. */
  datatype Call =
    | Direct(worker: WorkerId, tool: string, args: Json)
    | Continued(worker: WorkerId, tool: string, args: Json, approval: ApprovalId)

  /** Where a worker is while it handles one stream entry. `seen` is the run status it loaded before the claim. */
  datatype Job =
    | Idle
    | Got(entry: EntryId)
    | Claiming(entry: EntryId, run: RunId, at: Time, seen: RunStatus)
    | Claimed(entry: EntryId, run: RunId, seen: RunStatus)
    | NoneApproved(entry: EntryId, run: RunId, seen: RunStatus)
    | Settling(entry: EntryId, run: RunId, approval: ApprovalId, found: Option<ExStatus>)
    | ToCall(entry: EntryId, run: RunId, approval: ApprovalId)
    | InCall(entry: EntryId, run: RunId, approval: ApprovalId)
    | Returned(entry: EntryId, run: RunId, approval: ApprovalId)
    | CallFailed(entry: EntryId, run: RunId, approval: ApprovalId)
    | Running(entry: EntryId, run: RunId, seen: RunStatus)
    | Parked(entry: EntryId, run: RunId, seen: RunStatus)
    | Acking(entry: EntryId)
  {
    /** The worker claimed a run and is not done with it. */
    predicate Busy() {
      !Idle? && !Got? && !Claiming? && !Acking?
    }

    /** The worker consumed an approval and is not done with it. */
    predicate Holds() {
      ToCall? || InCall? || Returned? || CallFailed?
    }

    predicate Coordinates() {
      Running? || Parked?
    }
  }

  datatype State = State(
    now: Time,
    runs: seq<Run>,
    approvals: seq<Approval>,
    executions: map<ApprovalId, ExStatus>,
    outbox: seq<OutboxRow>,
    stream: seq<Entry>,
    jobs: map<WorkerId, Job>,
    batch: map<MsgId, bool>,
    scan: map<RunId, Run>,
    scanAt: Time,
    deadLetters: seq<RunId>,
    calls: seq<Call>,
    returned: set<ApprovalId>)

  datatype Origin = FromTask(task: nat) | FromSource | FromRetry(source: RunId, key: string)

  datatype Ruling = Approve | Reject | Unknown

  datatype ApiAction =
    | CreateRun(origin: Origin)
    | DecideApproval(approval: ApprovalId, ruling: Ruling)

  datatype SchedulerAction =
    | Publish(msg: MsgId, added: bool, replied: bool)
    | CommitPublished
    | Scan
    | Recover(run: RunId, dlqUp: bool)
    | Restart

  datatype WorkerAction =
    | Read(entry: EntryId)
    | Reclaim(entry: EntryId)
    | Load
    | ReadClock
    | Claim
    | LookApproved
    | LookConsumed
    | Settle
    | StartCall
    | CallReturns
    | CallRaises
    | FinalizeOk
    | FinalizeRaises
    | FinalizeAmbiguous
    | CallAllowed(tool: string, args: Json)
    | Park(tool: string, args: Json)
    | Beat(at: Time)
    | Finish(status: RunStatus, written: bool)
    | Ack
    | Crash

  datatype Action =
    | Api(api: ApiAction)
    | Scheduler(sched: SchedulerAction)
    | Worker(worker: WorkerId, act: WorkerAction)
    | Tick(millis: nat)
    | ForeignAdd(run: RunId)

  function Init(): (s: State)
    ensures WF(s)
  {
    State(0, [], [], map[], [], [], map[], map[], map[], 0, [], [], {})
  }

  function JobOf(s: State, w: WorkerId): (j: Job) {
    if w in s.jobs then s.jobs[w] else Idle
  }

  // ---------------------------------------------------------------------------------------------
  // Referential integrity
  // ---------------------------------------------------------------------------------------------

  predicate RunOk(s: State, r: Run, id: RunId) {
    r.root < |s.runs| && r.cover < |s.outbox| && s.outbox[r.cover].run == id
  }

  predicate EntryOk(s: State, e: Entry) {
    e.run < |s.runs| && (e.msg.Some? ==> e.msg.value < |s.outbox| && s.outbox[e.msg.value].run == e.run)
  }

  predicate JobOk(s: State, j: Job) {
    && (!j.Idle? ==> j.entry < |s.stream|)
    && (j.Claiming? || j.Busy() ==> j.run < |s.runs| && s.stream[j.entry].run == j.run)
    && (j.Claiming? ==> j.at <= s.now)
    && (j.Settling? || j.Holds() ==> j.approval < |s.approvals| && s.approvals[j.approval].run == j.run)
  }

  predicate WF(s: State) {
    && (forall r | 0 <= r < |s.runs| :: RunOk(s, s.runs[r], r))
    && (forall m | 0 <= m < |s.outbox| :: s.outbox[m].run < |s.runs|)
    && (forall a | 0 <= a < |s.approvals| :: s.approvals[a].run < |s.runs|)
    && (forall e | 0 <= e < |s.stream| :: EntryOk(s, s.stream[e]))
    && (forall w | w in s.jobs :: JobOk(s, s.jobs[w]))
    && (forall m | m in s.batch :: m < |s.outbox|)
    && (forall r | r in s.scan :: r < |s.runs| && s.scan[r].root < |s.runs|)
  }

  function SetJob(s: State, w: WorkerId, j: Job): (s': State)
    requires WF(s) && JobOk(s, j)
    ensures WF(s')
  {
    s.(jobs := s.jobs[w := j])
  }

  // ---------------------------------------------------------------------------------------------
  // API transactions
  // ---------------------------------------------------------------------------------------------

  /**
  Two keys that are the same text in the unique column.  A client's retry key may name the successor that recovery made
  of the same run; the id of a successor is drawn at random after any key a client can have sent.
  */
  predicate SameText(stored: OutboxKey, key: OutboxKey) {
    || stored == key
    || (stored.RecoverKey? && key.RetryKey? && stored.source == key.source && key.key == Text.ToDecimal(stored.run))
  }

  predicate KeyUsed(s: State, key: OutboxKey) {
    exists m :: 0 <= m < |s.outbox| && SameText(s.outbox[m].key, key)
  }

  function NewRow(run: RunId, key: OutboxKey, notBefore: Option<Time>, now: Time): (row: OutboxRow) {
    OutboxRow(run, key, false, 0, notBefore, now)
  }

  /** Adds a Queued run together with its outbox row. */
  function Enqueue(s: State, key: OutboxKey, notBefore: Option<Time>, retryCount: nat, root: RunId): (s': State)
    requires WF(s) && root <= |s.runs|
    ensures WF(s')
  {
    s.(runs := s.runs + [Run(Queued, None, None, None, retryCount, root, retryCount, |s.outbox|)],
       outbox := s.outbox + [NewRow(|s.runs|, key, notBefore, s.now)])
  }

  /** create_task, the source check and retry_run; an outbox key already in use aborts the transaction. */
  function DoCreateRun(s: State, origin: Origin): (s': State)
    requires WF(s)
    ensures WF(s')
  {
    match origin
    case FromTask(k) =>
      if KeyUsed(s, TaskKey(k)) then s else Enqueue(s, TaskKey(k), None, 0, |s.runs|)
    case FromSource =>
      if KeyUsed(s, RunKey(|s.runs|)) then s else Enqueue(s, RunKey(|s.runs|), None, 0, |s.runs|)
    case FromRetry(source, k) =>
      if source >= |s.runs| || !Terminal(s.runs[source].status) || KeyUsed(s, RetryKey(source, k)) then s
      else Enqueue(s, RetryKey(source, k), None, s.runs[source].retryCount + 1, |s.runs|)
  }

  /** The run half of an approval: a waiting run is queued again; an outbox row is added in any case. */
  function ResumeRun(s: State, a: ApprovalId, r: RunId): (s': State)
    requires WF(s) && r < |s.runs|
    ensures WF(s')
  {
    var row := s.runs[r];
    var row' := if row.status == WaitingApproval then row.(status := Queued, cover := |s.outbox|) else row;
    s.(runs := s.runs[r := row'], outbox := s.outbox + [NewRow(r, ApproveKey(a), None, s.now)])
  }

  function SetApproval(s: State, a: ApprovalId, ap: Approval): (s': State)
    requires WF(s) && a < |s.approvals| && ap.run == s.approvals[a].run
    ensures WF(s')
  {
    s.(approvals := s.approvals[a := ap])
  }

  /** The run half of a rejection: a waiting run fails. */
  function FailIfWaiting(s: State, r: RunId): (s': State)
    requires WF(s) && r < |s.runs|
    ensures WF(s')
  {
    var row := s.runs[r];
    s.(runs := s.runs[r := if row.status == WaitingApproval then row.(status := Failed) else row])
  }

  /** decide_with_continuation: one transaction under row locks on the approval and its run. */
  function DoDecide(s: State, a: ApprovalId, ruling: Ruling): (s': State)
    requires WF(s)
    ensures WF(s')
  {
    if a >= |s.approvals| || s.approvals[a].status != Pending then s
    else
      var ap := s.approvals[a];
      if ap.expires < s.now then SetApproval(s, a, ap.(status := Expired))
      else
        match ruling
        case Unknown => s
        case Approve => ResumeRun(SetApproval(s, a, ap.(status := Approved, decidedAt := Some(s.now))), a, ap.run)
        case Reject => FailIfWaiting(SetApproval(s, a, ap.(status := Rejected, decidedAt := Some(s.now))), ap.run)
  }

  function ApiStep(s: State, act: ApiAction): (s': State)
    requires WF(s)
    ensures WF(s')
  {
    match act
    case CreateRun(origin) => DoCreateRun(s, origin)
    case DecideApproval(a, ruling) => DoDecide(s, a, ruling)
  }

  // ---------------------------------------------------------------------------------------------
  // Scheduler steps
  // ---------------------------------------------------------------------------------------------

  predicate Publishable(s: State, row: OutboxRow) {
    !row.processed && row.attempts <= MAX_ATTEMPTS && (row.notBefore.Some? ==> row.notBefore.value <= s.now)
  }

  function NewEntry(run: RunId, msg: Option<MsgId>, now: Time): (e: Entry) {
    Entry(run, msg, now, false, now, false, false)
  }

  /** One XADD of a publishing round; the row is marked only when the round commits. */
  function DoPublish(s: State, m: MsgId, added: bool, replied: bool): (s': State)
    requires WF(s)
    ensures WF(s')
  {
    if m >= |s.outbox| || m in s.batch || !Publishable(s, s.outbox[m]) then s
    else
      s.(stream := if added then s.stream + [NewEntry(s.outbox[m].run, Some(m), s.now)] else s.stream,
         batch := s.batch[m := added && replied])
  }

  function Marked(row: OutboxRow, sent: bool): (row': OutboxRow) {
    row.(processed := row.processed || sent, attempts := row.attempts + 1)
  }

  function DoCommitPublished(s: State): (s': State)
    requires WF(s)
    ensures WF(s')
  {
    s.(outbox := seq(|s.outbox|, m requires 0 <= m < |s.outbox| =>
                     if m in s.batch then Marked(s.outbox[m], s.batch[m]) else s.outbox[m]),
       batch := map[])
  }

  function WriteRun(s: State, r: RunId, row: Run): (s': State)
    requires WF(s) && r < |s.runs| && row.root == s.runs[r].root && row.cover == s.runs[r].cover
    ensures WF(s')
  {
    s.(runs := s.runs[r := row])
  }

  /** The unlocked select that opens a recovery round. */
  function DoScan(s: State): (s': State)
    requires WF(s)
    ensures WF(s')
  {
    s.(scan := map r | 0 <= r < |s.runs| && s.runs[r].status == Executing :: s.runs[r], scanAt := s.now)
  }

  predicate StuckRow(row: Run, scanAt: Time, now: Time) {
    || (row.heartbeat.Some? && row.heartbeat.value + STUCK_AFTER < scanAt)
    || (row.lease.Some? && row.lease.value < now)
  }

  function Backoff(retry: nat): (b: Time)
    requires 1 <= retry <= MAX_RETRIES
    ensures b == if retry == 1 then 30_000 else if retry == 2 then 60_000 else 120_000
  {
    if retry == 1 then 30_000 else 2 * Backoff(retry - 1)
  }

  /**
  Recovers one run of the round: decided on the row as it was scanned, written over the row as it is now.  The write
  sets status, heartbeat and retry count only.
  */
  function DoRecover(s: State, r: RunId, dlqUp: bool): (s': State)
    requires WF(s)
    ensures WF(s')
  {
    if r !in s.scan then s
    else
      var row := s.scan[r];
      var s1 := s.(scan := s.scan - {r});
      if !StuckRow(row, s.scanAt, s.now) then s1
      else
        var retry := row.retryCount + 1;
        var s2 := WriteRun(s1, r, s.runs[r].(status := Failed, heartbeat := Some(s.now), retryCount := retry));
        if retry > MAX_RETRIES then
          if dlqUp then s2.(deadLetters := s2.deadLetters + [r]) else s2
        else
          Enqueue(s2, RecoverKey(r, |s.runs|), Some(s.now + Backoff(retry)), retry, row.root)
  }

  function SchedulerStep(s: State, act: SchedulerAction): (s': State)
    requires WF(s)
    ensures WF(s')
  {
    match act
    case Publish(m, added, replied) => DoPublish(s, m, added, replied)
    case CommitPublished => DoCommitPublished(s)
    case Scan => DoScan(s)
    case Recover(r, dlqUp) => DoRecover(s, r, dlqUp)
    case Restart => s.(batch := map[], scan := map[])
  }

  // ---------------------------------------------------------------------------------------------
  // Worker steps
  // ---------------------------------------------------------------------------------------------

  function DoRead(s: State, w: WorkerId, e: EntryId): (s': State)
    requires WF(s)
    ensures WF(s')
  {
    if !JobOf(s, w).Idle? || e >= |s.stream| || s.stream[e].delivered then s
    else SetJob(s.(stream := s.stream[e := s.stream[e].(delivered := true, idleSince := s.now)]), w, Got(e))
  }

  function DoReclaim(s: State, w: WorkerId, e: EntryId): (s': State)
    requires WF(s)
    ensures WF(s')
  {
    if !JobOf(s, w).Idle? || e >= |s.stream| then s
    else
      var entry := s.stream[e];
      if !entry.delivered || entry.acked || s.now < entry.idleSince + MIN_IDLE then s
      else SetJob(s.(stream := s.stream[e := entry.(idleSince := s.now)]), w, Got(e))
  }

  function Pass(s: State, e: EntryId): (s': State)
    requires WF(s) && e < |s.stream|
    ensures WF(s')
  {
    s.(stream := s.stream[e := s.stream[e].(passed := true)])
  }

  /** Loads the run; a terminal one is only acknowledged.  The clock is read at once, or later by `ReadClock`. */
  function DoLoad(s: State, w: WorkerId): (s': State)
    requires WF(s)
    ensures WF(s')
  {
    match JobOf(s, w)
    case Got(e) =>
      assert EntryOk(s, s.stream[e]);
      var r := s.stream[e].run;
      if Terminal(s.runs[r].status) then SetJob(Pass(s, e), w, Acking(e))
      else SetJob(s, w, Claiming(e, r, s.now, s.runs[r].status))
    case _ => s
  }

  /** Time may pass between loading the run and its task and reading the clock that the claim uses. */
  function DoReadClock(s: State, w: WorkerId): (s': State)
    requires WF(s)
    ensures WF(s')
  {
    match JobOf(s, w)
    case Claiming(e, r, at, seen) => SetJob(s, w, Claiming(e, r, s.now, seen))
    case _ => s
  }

  predicate Claimable(row: Run, at: Time) {
    row.status == Queued || (row.status == Executing && (row.lease.None? || row.lease.value < at))
  }

  /** The atomic claiming UPDATE. */
  function DoClaim(s: State, w: WorkerId): (s': State)
    requires WF(s)
    ensures WF(s')
  {
    match JobOf(s, w)
    case Claiming(e, r, at, seen) =>
      var s1 := Pass(s, e);
      if Claimable(s.runs[r], at) then
        var row := s.runs[r].(status := Executing, worker := Some(w), heartbeat := Some(at), lease := Some(at + LEASE));
        SetJob(s1.(runs := s.runs[r := row]), w, Claimed(e, r, seen))
      else SetJob(s1, w, Acking(e))
    case _ => s
  }

  /** The newest approval of run `r` with the given status. */
  function Latest(approvals: seq<Approval>, r: RunId, st: ApprovalStatus): (a: Option<ApprovalId>)
    ensures a.Some? ==> a.value < |approvals| && approvals[a.value].run == r && approvals[a.value].status == st
    ensures forall b | 0 <= b < |approvals| && approvals[b].run == r && approvals[b].status == st ::
              a.Some? && b <= a.value
  {
    if approvals == [] then None
    else
      var last := |approvals| - 1;
      if approvals[last].run == r && approvals[last].status == st then Some(last)
      else Latest(approvals[..last], r, st)
  }

  /** consume_and_record on a locked approved row: refused when expired, else consumed with one execution record. */
  function Consume(s: State, a: ApprovalId, w: WorkerId): (s': State)
    requires WF(s) && a < |s.approvals|
    ensures WF(s')
  {
    var ap := s.approvals[a];
    s.(approvals := s.approvals[a := ap.(status := Consumed, consumedAt := Some(s.now), consumedBy := Some(w))],
       executions := s.executions[a := InFlight])
  }

  /**
  First half of the continuation check: the select for approved rows, and the consumption in the same transaction.
  */
  function DoLookApproved(s: State, w: WorkerId): (s': State)
    requires WF(s)
    ensures WF(s')
  {
    match JobOf(s, w)
    case Claimed(e, r, seen) =>
      (match Latest(s.approvals, r, Approved)
       case None => SetJob(s, w, NoneApproved(e, r, seen))
       case Some(a) =>
         if s.approvals[a].expires < s.now then SetJob(s, w, Acking(e))
         else if a in s.executions then SetJob(s, w, Idle)  // the unique constraint raises
         else SetJob(Consume(s, a, w), w, ToCall(e, r, a)))
    case _ => s
  }

  /** Second half: the select for consumed rows and the read of the execution record. */
  function DoLookConsumed(s: State, w: WorkerId): (s': State)
    requires WF(s)
    ensures WF(s')
  {
    match JobOf(s, w)
    case NoneApproved(e, r, seen) =>
      (match Latest(s.approvals, r, Consumed)
       case None => SetJob(s, w, Running(e, r, seen))
       case Some(a) =>
         SetJob(s, w, Settling(e, r, a, if a in s.executions then Some(s.executions[a]) else None)))
    case _ => s
  }

  function EndIfExecuting(s: State, r: RunId, st: RunStatus): (s': State)
    requires WF(s) && r < |s.runs|
    ensures WF(s')
  {
    if s.runs[r].status == Executing then s.(runs := s.runs[r := s.runs[r].(status := st)]) else s
  }

  /** A run whose approval was already consumed is closed without another call. */
  function DoSettle(s: State, w: WorkerId): (s': State)
    requires WF(s)
    ensures WF(s')
  {
    match JobOf(s, w)
    case Settling(e, r, a, found) =>
      if found.None? && a in s.executions then SetJob(s, w, Idle)  // the unique constraint raises
      else
        var s1 := if found.None? || found.value == InFlight then s.(executions := s.executions[a := Ambiguous]) else s;
        SetJob(EndIfExecuting(s1, r, if found == Some(Succeeded) then Completed else Failed), w, Acking(e))
    case _ => s
  }

  function DoStartCall(s: State, w: WorkerId): (s': State)
    requires WF(s)
    ensures WF(s')
  {
    match JobOf(s, w)
    case ToCall(e, r, a) =>
      var ap := s.approvals[a];
      SetJob(s.(calls := s.calls + [Continued(w, ap.tool, ap.args, a)]), w, InCall(e, r, a))
    case _ => s
  }

  function DoCallReturns(s: State, w: WorkerId): (s': State)
    requires WF(s)
    ensures WF(s')
  {
    match JobOf(s, w)
    case InCall(e, r, a) => SetJob(s.(returned := s.returned + {a}), w, Returned(e, r, a))
    case _ => s
  }

  function DoCallRaises(s: State, w: WorkerId): (s': State)
    requires WF(s)
    ensures WF(s')
  {
    match JobOf(s, w)
    case InCall(e, r, a) => SetJob(s, w, CallFailed(e, r, a))
    case _ => s
  }

  /** Writes the outcome of a continuation over whatever the run row says. */
  function CloseCall(s: State, a: ApprovalId, r: RunId, ex: ExStatus, st: RunStatus): (s': State)
    requires WF(s) && r < |s.runs|
    ensures WF(s')
  {
    s.(executions := if a in s.executions then s.executions[a := ex] else s.executions,
       runs := s.runs[r := s.runs[r].(status := st)])
  }

  function DoFinalizeOk(s: State, w: WorkerId): (s': State)
    requires WF(s)
    ensures WF(s')
  {
    match JobOf(s, w)
    case Returned(e, r, a) => SetJob(CloseCall(s, a, r, Succeeded, Completed), w, Acking(e))
    case _ => s
  }

  function DoFinalizeRaises(s: State, w: WorkerId): (s': State)
    requires WF(s)
    ensures WF(s')
  {
    match JobOf(s, w)
    case Returned(e, r, a) => SetJob(s, w, CallFailed(e, r, a))
    case _ => s
  }

  function DoFinalizeAmbiguous(s: State, w: WorkerId): (s': State)
    requires WF(s)
    ensures WF(s')
  {
    match JobOf(s, w)
    case CallFailed(e, r, a) => SetJob(CloseCall(s, a, r, Ambiguous, Failed), w, Acking(e))
    case _ => s
  }

  function DoCallAllowed(s: State, w: WorkerId, tool: string, args: Json): (s': State)
    requires WF(s)
    ensures WF(s')
  {
    if !JobOf(s, w).Running? || !Verdict0(tool).Allow? then s
    else s.(calls := s.calls + [Direct(w, tool, args)])
  }

  /** The coordinator meets a gated action: a pending approval with the exact tool and arguments is stored. */
  function DoPark(s: State, w: WorkerId, tool: string, args: Json): (s': State)
    requires WF(s)
    ensures WF(s')
  {
    match JobOf(s, w)
    case Running(e, r, seen) =>
      if !Verdict0(tool).RequireApproval? then s
      else
        var ap := Approval(r, tool, args, Pending, s.now + APPROVAL_TTL, None, None, None);
        SetJob(s.(approvals := s.approvals + [ap]), w, Parked(e, r, seen))
    case _ => s
  }

  /** The heartbeat UPDATE, restricted to rows that still name this worker. */
  function DoBeat(s: State, w: WorkerId, at: Time): (s': State)
    requires WF(s)
    ensures WF(s')
  {
    var j := JobOf(s, w);
    if !j.Coordinates() || at > s.now || s.runs[j.run].worker != Some(w) then s
    else s.(runs := s.runs[j.run := s.runs[j.run].(heartbeat := Some(at), lease := Some(at + LEASE))])
  }

  /** What the coordinator may return: it waits for an approval only if it parked one, and then it does not complete. */
  predicate MayFinish(j: Job, st: RunStatus) {
    || (j.Running? && st in {Completed, Failed, Cancelled, Paused})
    || (j.Parked? && st in {WaitingApproval, Failed, Cancelled, Paused})
  }

  /**
  The final status write.  It has no guard on the row.  The object mapper sends changed columns only, and it compares
  with the row as loaded before the claim: the status may stay unwritten when it equals the one seen then.
  */
  function DoFinish(s: State, w: WorkerId, st: RunStatus, written: bool): (s': State)
    requires WF(s)
    ensures WF(s')
  {
    var j := JobOf(s, w);
    if !j.Coordinates() || !MayFinish(j, st) || (!written && j.seen != st) then s
    else
      var row := s.runs[j.run].(heartbeat := Some(s.now));
      SetJob(s.(runs := s.runs[j.run := if written then row.(status := st) else row]), w, Acking(j.entry))
  }

  function DoAck(s: State, w: WorkerId): (s': State)
    requires WF(s)
    ensures WF(s')
  {
    match JobOf(s, w)
    case Acking(e) => SetJob(s.(stream := s.stream[e := s.stream[e].(acked := true)]), w, Idle)
    case _ => s
  }

  function WorkerStep(s: State, w: WorkerId, act: WorkerAction): (s': State)
    requires WF(s)
    ensures WF(s')
  {
    match act
    case Read(e) => DoRead(s, w, e)
    case Reclaim(e) => DoReclaim(s, w, e)
    case Load => DoLoad(s, w)
    case ReadClock => DoReadClock(s, w)
    case Claim => DoClaim(s, w)
    case LookApproved => DoLookApproved(s, w)
    case LookConsumed => DoLookConsumed(s, w)
    case Settle => DoSettle(s, w)
    case StartCall => DoStartCall(s, w)
    case CallReturns => DoCallReturns(s, w)
    case CallRaises => DoCallRaises(s, w)
    case FinalizeOk => DoFinalizeOk(s, w)
    case FinalizeRaises => DoFinalizeRaises(s, w)
    case FinalizeAmbiguous => DoFinalizeAmbiguous(s, w)
    case CallAllowed(tool, args) => DoCallAllowed(s, w, tool, args)
    case Park(tool, args) => DoPark(s, w, tool, args)
    case Beat(at) => DoBeat(s, w, at)
    case Finish(st, written) => DoFinish(s, w, st, written)
    case Ack => DoAck(s, w)
    case Crash => SetJob(s, w, Idle)
  }

  // ---------------------------------------------------------------------------------------------
  // The system
  // ---------------------------------------------------------------------------------------------

  /** A stream entry nobody vouches for: a command of the chat bot, or a second XADD of a row already sent. */
  function DoForeignAdd(s: State, r: RunId): (s': State)
    requires WF(s)
    ensures WF(s')
  {
    if r >= |s.runs| then s else s.(stream := s.stream + [NewEntry(r, None, s.now)])
  }

  function Step(s: State, act: Action): (s': State)
    requires WF(s)
    ensures WF(s')
  {
    match act
    case Api(a) => ApiStep(s, a)
    case Scheduler(a) => SchedulerStep(s, a)
    case Worker(w, a) => WorkerStep(s, w, a)
    case Tick(d) => s.(now := s.now + d)
    case ForeignAdd(r) => DoForeignAdd(s, r)
  }

  function Exec(s: State, acts: seq<Action>): (s': State)
    requires WF(s)
    ensures WF(s')
    decreases |acts|
  {
    if acts == [] then s else Step(Exec(s, acts[..|acts| - 1]), acts[|acts| - 1])
  }

  /** The state after the first `n` actions of a schedule. */
  function At(acts: seq<Action>, n: nat): (s: State)
    requires n <= |acts|
    ensures WF(s)
  {
    Exec(Init(), acts[..n])
  }

  lemma AtNext(acts: seq<Action>, n: nat)
    requires n < |acts|
    ensures At(acts, n + 1) == Step(At(acts, n), acts[n])
  {
    assert acts[..n + 1][..n] == acts[..n];
  }

  lemma ExecMore(s: State, acts: seq<Action>, act: Action)
    requires WF(s)
    ensures Exec(s, acts + [act]) == Step(Exec(s, acts), act)
  {
    hide WF, Step;
    assert (acts + [act])[..|acts|] == acts;
  }

  lemma ExecNone(s: State)
    requires WF(s)
    ensures Exec(s, []) == s
  {
    hide WF;
  }
}
