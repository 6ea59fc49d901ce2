/**
The append-only event log.  Writers hold one transaction-scoped advisory lock from before they allocate numbers until
their transaction ends, so what readers see only ever grows at its end.
*/
module EventLog {
  import opened Types

  type TxId = nat

  /**
  A run event: `num` is its `seq`, which counts within its run; `gseq` comes from a database identity that all runs
  share.
  */
  datatype Event = Event(run: nat, num: int, gseq: nat, kind: string)

  /** An open transaction: the rows it inserted and the last `max(seq)` it read. */
  datatype Tx = Tx(rows: seq<Event>, read: Option<(nat, int)>)

  /** `committed` is in commit order; `counter` is the next identity value, which no rollback gives back. */
  datatype Log = Log(committed: seq<Event>, lock: Option<TxId>, open: map<TxId, Tx>, counter: nat)

  datatype LogAction =
    | Begin(tx: TxId)
    | Acquire(tx: TxId)
    | ReadMax(tx: TxId, run: nat)
    | Insert(tx: TxId, kind: string)
    | Commit(tx: TxId)
    | Abort(tx: TxId)

  function Init(): (l: Log) {
    Log([], None, map[], 1)
  }

  /** COALESCE(MAX(seq), -1) over the rows of one run. */
  function MaxSeq(rows: seq<Event>, run: nat): (m: int)
    ensures m >= -1
  {
    if rows == [] then -1
    else
      var last := rows[|rows| - 1];
      var m := MaxSeq(rows[..|rows| - 1], run);
      if last.run == run && last.num > m then last.num else m
  }

  /** Some row already has this run and sequence number, or this identity. */
  predicate Violates(rows: seq<Event>, e: Event) {
    exists i :: 0 <= i < |rows| && ((rows[i].run == e.run && rows[i].num == e.num) || rows[i].gseq == e.gseq)
  }

  function End(l: Log, t: TxId): (l': Log) {
    l.(open := l.open - {t}, lock := if l.lock == Some(t) then None else l.lock)
  }

  function Step(l: Log, act: LogAction): (l': Log) {
    match act
    case Begin(t) => if t in l.open then l else l.(open := l.open[t := Tx([], None)])
    case Acquire(t) =>
      // pg_advisory_xact_lock waits while another transaction holds the lock
      if t in l.open && l.lock == None then l.(lock := Some(t)) else l
    case ReadMax(t, run) =>
      if t in l.open && l.lock == Some(t) then
        var tx := l.open[t];
        l.(open := l.open[t := tx.(read := Some((run, MaxSeq(l.committed + tx.rows, run))))])
      else l
    case Insert(t, kind) =>
      if t in l.open && l.open[t].read.Some? then
        var tx := l.open[t];
        var e := Event(tx.read.value.0, tx.read.value.1 + 1, l.counter, kind);
        var l1 := l.(counter := l.counter + 1);
        if Violates(l.committed + tx.rows, e) then End(l1, t)
        else l1.(open := l.open[t := Tx(tx.rows + [e], None)])
      else l
    case Commit(t) => if t in l.open then End(l.(committed := l.committed + l.open[t].rows), t) else l
    case Abort(t) => End(l, t)
  }

  function Exec(l: Log, acts: seq<LogAction>): (l': Log) {
    if acts == [] then l else Step(Exec(l, acts[..|acts| - 1]), acts[|acts| - 1])
  }

  // ---------------------------------------------------------------------------------------------
  // The invariant
  // ---------------------------------------------------------------------------------------------

  predicate Increasing(rows: seq<Event>) {
    forall i, j | 0 <= i < j < |rows| :: rows[i].gseq < rows[j].gseq
  }

  function CountRun(rows: seq<Event>, run: nat): (n: nat) {
    if rows == [] then 0 else CountRun(rows[..|rows| - 1], run) + if rows[|rows| - 1].run == run then 1 else 0
  }

  /** Every row's number is the number of earlier rows of its run: per run, 0, 1, 2 and so on. */
  predicate Dense(rows: seq<Event>) {
    forall i | 0 <= i < |rows| :: rows[i].num == CountRun(rows[..i], rows[i].run)
  }

  /** All rows a transaction can see. */
  function Seen(l: Log, tx: Tx): (rows: seq<Event>) {
    l.committed + tx.rows
  }

  predicate TxOk(l: Log, t: TxId, tx: Tx) {
    && (tx.rows != [] || tx.read.Some? ==> l.lock == Some(t))
    && Increasing(Seen(l, tx)) && Dense(Seen(l, tx))
    && (forall i | 0 <= i < |Seen(l, tx)| :: Seen(l, tx)[i].gseq < l.counter)
    && (tx.read.Some? ==> tx.read.value.1 == CountRun(Seen(l, tx), tx.read.value.0) - 1)
  }

  predicate LogInv(l: Log) {
    && Increasing(l.committed) && Dense(l.committed)
    && (forall i | 0 <= i < |l.committed| :: l.committed[i].gseq < l.counter)
    && (forall t | t in l.open :: TxOk(l, t, l.open[t]))
  }

  lemma {:induction false} MaxIsCount(rows: seq<Event>, run: nat)
    requires Dense(rows)
    ensures MaxSeq(rows, run) == CountRun(rows, run) - 1
  {
    if rows != [] {
      var n := |rows| - 1;
      assert Dense(rows[..n]) by {
        forall i | 0 <= i < n ensures rows[..n][i].num == CountRun(rows[..n][..i], rows[..n][i].run) {
          assert rows[..n][..i] == rows[..i];
        }
      }
      MaxIsCount(rows[..n], run);
      assert rows[n].num == CountRun(rows[..n], rows[n].run);
    }
  }

  lemma {:induction false} CountMonotone(rows: seq<Event>, i: nat, j: nat, run: nat)
    requires i <= j <= |rows|
    ensures CountRun(rows[..i], run) <= CountRun(rows[..j], run)
    ensures i < j && rows[i].run == run ==> CountRun(rows[..i], run) < CountRun(rows[..j], run)
    decreases j - i
  {
    if i < j {
      assert rows[..j][..j - 1] == rows[..j - 1];
      CountMonotone(rows, i, j - 1, run);
    }
  }

  /** The next number of a run is free. */
  lemma NoViolation(rows: seq<Event>, e: Event)
    requires Dense(rows) && e.num == CountRun(rows, e.run)
    requires forall i | 0 <= i < |rows| :: rows[i].gseq < e.gseq
    ensures !Violates(rows, e)
  {
    forall i | 0 <= i < |rows| && rows[i].run == e.run ensures rows[i].num != e.num {
      assert rows[..|rows|] == rows;
      CountMonotone(rows, i, |rows|, e.run);
    }
  }

  lemma AppendKeeps(rows: seq<Event>, e: Event)
    requires Increasing(rows) && Dense(rows) && e.num == CountRun(rows, e.run)
    requires forall i | 0 <= i < |rows| :: rows[i].gseq < e.gseq
    ensures Increasing(rows + [e]) && Dense(rows + [e])
  {
    forall i | 0 <= i < |rows + [e]| ensures (rows + [e])[i].num == CountRun((rows + [e])[..i], (rows + [e])[i].run) {
      if i < |rows| { assert (rows + [e])[..i] == rows[..i]; } else { assert (rows + [e])[..i] == rows; }
    }
  }

  lemma EndKeeps(l: Log, t: TxId)
    requires LogInv(l)
    ensures LogInv(End(l, t))
  {
    hide CountRun, Dense, Increasing;
    forall u | u in End(l, t).open ensures TxOk(End(l, t), u, End(l, t).open[u]) { assert TxOk(l, u, l.open[u]); }
  }

  lemma NextFits(l: Log, t: TxId, e: Event)
    requires LogInv(l) && t in l.open && l.open[t].read.Some?
    requires e.run == l.open[t].read.value.0 && e.num == l.open[t].read.value.1 + 1 && e.gseq == l.counter
    ensures !Violates(Seen(l, l.open[t]), e)
    ensures Increasing(Seen(l, l.open[t]) + [e]) && Dense(Seen(l, l.open[t]) + [e])
  {
    var seen := Seen(l, l.open[t]);
    assert TxOk(l, t, l.open[t]);
    NoViolation(seen, e);
    AppendKeeps(seen, e);
  }

  lemma InsertKeeps(l: Log, t: TxId, kind: string)
    requires LogInv(l) && t in l.open && l.open[t].read.Some?
    ensures LogInv(Step(l, Insert(t, kind)))
    ensures var tx := l.open[t];
            Step(l, Insert(t, kind)).open ==
            l.open[t := Tx(tx.rows + [Event(tx.read.value.0, tx.read.value.1 + 1, l.counter, kind)], None)]
  {
    hide Dense, Increasing, CountRun, Violates;
    var tx := l.open[t];
    assert TxOk(l, t, tx);
    var e := Event(tx.read.value.0, tx.read.value.1 + 1, l.counter, kind);
    NextFits(l, t, e);
    assert Seen(l, tx) + [e] == l.committed + (tx.rows + [e]);
    var l' := Step(l, Insert(t, kind));
    forall u | u in l'.open ensures TxOk(l', u, l'.open[u]) {
      if u != t { assert TxOk(l, u, l.open[u]); }
    }
  }

  lemma CommitKeeps(l: Log, t: TxId)
    requires LogInv(l) && t in l.open
    ensures LogInv(Step(l, Commit(t)))
  {
    hide Dense, Increasing, CountRun;
    var tx := l.open[t];
    var l' := Step(l, Commit(t));
    assert TxOk(l, t, tx);
    forall u | u in l'.open ensures TxOk(l', u, l'.open[u]) {
      assert TxOk(l, u, l.open[u]);
      if tx.rows == [] {
        assert l'.committed == l.committed;
      } else {
        // Another transaction does not hold the lock, hence it has neither rows nor a pending read.
        assert Seen(l', l'.open[u]) == Seen(l, tx);
      }
    }
  }

  lemma StepKeeps(l: Log, act: LogAction)
    requires LogInv(l)
    ensures LogInv(Step(l, act))
  {
    hide Dense, Increasing, CountRun, Violates;
    match act
    case Begin(t) =>
      var l' := Step(l, act);
      assert Seen(l, Tx([], None)) == l.committed;
      forall u | u in l'.open ensures TxOk(l', u, l'.open[u]) { if u in l.open { assert TxOk(l, u, l.open[u]); } }
    case Acquire(t) =>
      var l' := Step(l, act);
      forall u | u in l'.open ensures TxOk(l', u, l'.open[u]) { assert TxOk(l, u, l.open[u]); }
    case ReadMax(t, run) =>
      if t in l.open {
        assert TxOk(l, t, l.open[t]);
        MaxIsCount(Seen(l, l.open[t]), run);
        var l' := Step(l, act);
        forall u | u in l'.open ensures TxOk(l', u, l'.open[u]) { assert TxOk(l, u, l.open[u]); }
      }
    case Insert(t, kind) => if t in l.open && l.open[t].read.Some? { InsertKeeps(l, t, kind); }
    case Commit(t) => if t in l.open { CommitKeeps(l, t); }
    case Abort(t) => EndKeeps(l, t);
  }

  lemma {:induction false} Reachable(acts: seq<LogAction>)
    ensures LogInv(Exec(Init(), acts))
  {
    hide LogInv, Step;
    if acts != [] {
      Reachable(acts[..|acts| - 1]);
      StepKeeps(Exec(Init(), acts[..|acts| - 1]), acts[|acts| - 1]);
    } else {
      InitOk();
    }
  }

  lemma InitOk()
    ensures LogInv(Init())
  {
  }

  // ---------------------------------------------------------------------------------------------
  // What readers and writers may rely on
  // ---------------------------------------------------------------------------------------------

  lemma {:induction false} CommittedGrows(l: Log, acts: seq<LogAction>)
    ensures l.committed <= Exec(l, acts).committed
  {
    if acts != [] {
      CommittedGrows(l, acts[..|acts| - 1]);
    }
  }

  /** Identity values start at one. */
  predicate Positive(rows: seq<Event>) {
    forall i | 0 <= i < |rows| :: rows[i].gseq >= 1
  }

  lemma {:induction false} NumbersArePositive(acts: seq<LogAction>)
    ensures
      var l := Exec(Init(), acts);
      l.counter >= 1 && Positive(l.committed) && forall t | t in l.open :: Positive(l.open[t].rows)
  {
    if acts != [] {
      hide Violates, MaxSeq;
      NumbersArePositive(acts[..|acts| - 1]);
    }
  }

  /**
  A writer that begins while nobody holds the lock, and is not interrupted, makes exactly one event visible: the next
  one of its run, with the next identity value.
  */
  lemma AppendIsVisible(acts: seq<LogAction>, t: TxId, run: nat, kind: string)
    requires t !in Exec(Init(), acts).open && Exec(Init(), acts).lock == None
    ensures
      var l := Exec(Init(), acts);
      var l' := Exec(l, [Begin(t), Acquire(t), ReadMax(t, run), Insert(t, kind), Commit(t)]);
      && l'.committed == l.committed + [Event(run, CountRun(l.committed, run), l.counter, kind)]
      && l'.lock == None && l'.open == l.open
  {
    hide Exec, LogInv, Step, CountRun;
    var l := Exec(Init(), acts);
    Reachable(acts);
    FiveSteps(l, Begin(t), Acquire(t), ReadMax(t, run), Insert(t, kind), Commit(t));
    ReadUnderLock(l, t, run);
    WrittenUnderLock(l, t, run, CountRun(l.committed, run), kind);
  }

  lemma ReadUnderLock(l: Log, t: TxId, run: nat)
    requires LogInv(l) && t !in l.open && l.lock == None
    ensures
      var l' := Step(Step(Step(l, Begin(t)), Acquire(t)), ReadMax(t, run));
      && LogInv(l')
      && l' == l.(lock := Some(t), open := l.open[t := Tx([], Some((run, CountRun(l.committed, run) - 1)))])
  {
    hide Dense, Increasing, CountRun, MaxSeq, TxOk, Violates;
    var l1 := Step(l, Begin(t));
    var l2 := Step(l1, Acquire(t));
    StepKeeps(l, Begin(t));
    StepKeeps(l1, Acquire(t));
    StepKeeps(l2, ReadMax(t, run));
    assert l.committed + [] == l.committed;
    MaxIsCount(l.committed, run);
  }

  lemma WrittenUnderLock(l: Log, t: TxId, run: nat, n: nat, kind: string)
    requires t !in l.open && l.lock == None
    requires LogInv(l.(lock := Some(t), open := l.open[t := Tx([], Some((run, n - 1)))]))
    ensures
      var l1 := l.(lock := Some(t), open := l.open[t := Tx([], Some((run, n - 1)))]);
      var l' := Step(Step(l1, Insert(t, kind)), Commit(t));
      l'.committed == l.committed + [Event(run, n, l.counter, kind)] && l'.lock == None && l'.open == l.open
  {
    hide LogInv, Violates;
    var l1 := l.(lock := Some(t), open := l.open[t := Tx([], Some((run, n - 1)))]);
    InsertKeeps(l1, t, kind);
  }

  lemma FiveSteps(l: Log, a: LogAction, b: LogAction, c: LogAction, d: LogAction, e: LogAction)
    ensures Exec(l, [a, b, c, d, e]) == Step(Step(Step(Step(Step(l, a), b), c), d), e)
  {
    hide Step;
    var none: seq<LogAction> := [];
    assert [a, b, c, d, e][..4] == [a, b, c, d] && [a, b, c, d][..3] == [a, b, c];
    assert [a, b, c][..2] == [a, b] && [a, b][..1] == [a] && [a][..0] == none;
    assert Exec(l, [a]) == Step(l, a) && Exec(l, [a, b]) == Step(Exec(l, [a]), b);
    assert Exec(l, [a, b, c]) == Step(Exec(l, [a, b]), c) && Exec(l, [a, b, c, d]) == Step(Exec(l, [a, b, c]), d);
  }

  /** Nothing is visible of a transaction that has not committed, and nothing ever of one that aborts. */
  lemma OnlyCommitShows(acts: seq<LogAction>, act: LogAction)
    ensures
      var l := Exec(Init(), acts);
      Step(l, act).committed ==
        if act.Commit? && act.tx in l.open then l.committed + l.open[act.tx].rows else l.committed
  {
    hide Violates, MaxSeq;
  }

  /**
  Prefix visibility: later states show the same events and then only events with greater numbers; and no transaction
  still open will ever commit an event that a reader's cursor has already passed.
  */
  lemma PrefixVisibility(acts: seq<LogAction>, more: seq<LogAction>)
    ensures
      var l1 := Exec(Init(), acts);
      var l2 := Exec(l1, more);
      && l1.committed <= l2.committed
      && Increasing(l2.committed)
      && (forall t, i, j | t in l2.open && 0 <= i < |l2.open[t].rows| && 0 <= j < |l2.committed| ::
            l2.committed[j].gseq < l2.open[t].rows[i].gseq)
  {
    hide Dense, CountRun, Step;
    ExecTwice(Init(), acts, more);
    Reachable(acts + more);
    CommittedGrows(Exec(Init(), acts), more);
    var l2 := Exec(Init(), acts + more);
    forall t, i, j | t in l2.open && 0 <= i < |l2.open[t].rows| && 0 <= j < |l2.committed|
      ensures l2.committed[j].gseq < l2.open[t].rows[i].gseq
    {
      var tx := l2.open[t];
      assert TxOk(l2, t, tx);
      assert Seen(l2, tx)[j] == l2.committed[j] && Seen(l2, tx)[|l2.committed| + i] == tx.rows[i];
    }
  }

  lemma {:induction false} ExecTwice(l: Log, acts: seq<LogAction>, more: seq<LogAction>)
    ensures Exec(l, acts + more) == Exec(Exec(l, acts), more)
  {
    hide Step;
    if more == [] {
      assert acts + more == acts;
    } else {
      var n := |more| - 1;
      assert (acts + more)[..|acts + more| - 1] == acts + more[..n];
      ExecTwice(l, acts, more[..n]);
    }
  }

  /** The committed events of one run, oldest first. */
  function OfRun(rows: seq<Event>, run: nat): (es: seq<Event>) {
    if rows == [] then []
    else
      var last := rows[|rows| - 1];
      OfRun(rows[..|rows| - 1], run) + if last.run == run then [last] else []
  }

  lemma {:induction false} DenseIsNumbered(rows: seq<Event>, run: nat)
    requires Dense(rows)
    ensures |OfRun(rows, run)| == CountRun(rows, run)
    ensures forall k | 0 <= k < |OfRun(rows, run)| :: OfRun(rows, run)[k].num == k && OfRun(rows, run)[k].run == run
  {
    if rows != [] {
      var n := |rows| - 1;
      assert Dense(rows[..n]) by {
        forall i | 0 <= i < n ensures rows[..n][i].num == CountRun(rows[..n][..i], rows[..n][i].run) {
          assert rows[..n][..i] == rows[..i];
        }
      }
      DenseIsNumbered(rows[..n], run);
      assert rows[n].num == CountRun(rows[..n], rows[n].run);
    }
  }

  /** In every reachable state the events of a run are numbered 0, 1, 2 and so on, in commit order. */
  lemma RunsAreNumbered(acts: seq<LogAction>, run: nat)
    ensures
      var es := OfRun(Exec(Init(), acts).committed, run);
      forall k | 0 <= k < |es| :: es[k].num == k
  {
    Reachable(acts);
    DenseIsNumbered(Exec(Init(), acts).committed, run);
  }

  /** Under the lock an insert never meets a unique violation: its transaction stays open with one more row. */
  lemma InsertNeverViolates(acts: seq<LogAction>, t: TxId, kind: string)
    ensures
      var l := Exec(Init(), acts);
      t in l.open && l.open[t].read.Some? ==>
        && t in Step(l, Insert(t, kind)).open
        && |Step(l, Insert(t, kind)).open[t].rows| == |l.open[t].rows| + 1
  {
    Reachable(acts);
    var l := Exec(Init(), acts);
    if t in l.open && l.open[t].read.Some? { InsertKeeps(l, t, kind); }
  }
}

/** The writer's side of the log: the retry loop around one append. */
module EventWriter {
  import opened Types
  import opened EventLog

  /** How one attempt ends: it commits, meets a unique-constraint violation, or fails otherwise. */
  datatype Fault = NoFault | Integrity | Other

  datatype Outcome = Returned | Raised(fault: Fault)

  /** The attempt at which the loop stops, or `n` when every attempt meets a violation. */
  function FirstStop(faults: nat -> Fault, n: nat, from: nat): (k: nat)
    requires from <= n
    ensures from <= k <= n
    ensures forall i | from <= i < k :: faults(i) == Integrity
    ensures k < n ==> faults(k) != Integrity
    decreases n - from
  {
    if from == n || faults(from) != Integrity then from else FirstStop(faults, n, from + 1)
  }

  class EventTable {
    var rows: seq<Event>
    var counter: nat

    ghost predicate Valid()
      reads this
    {
      Increasing(rows) && Dense(rows) && forall i | 0 <= i < |rows| :: rows[i].gseq < counter
    }

    constructor ()
      ensures Valid() && rows == []
    {
      rows, counter := [], 1;
    }

    /** SELECT COALESCE(MAX(seq), -1) for one run. */
    method SelectMax(run: nat) returns (m: int)
      requires Valid()
      ensures m == CountRun(rows, run) - 1
    {
      m := -1;
      for i := 0 to |rows|
        invariant m == MaxSeq(rows[..i], run)
      {
        assert rows[..i + 1][..i] == rows[..i];
        if rows[i].run == run && rows[i].num > m {
          m := rows[i].num;
        }
      }
      assert rows[..|rows|] == rows;
      MaxIsCount(rows, run);
    }

    /** One append in its own transaction. */
    method AppendOnce(run: nat, kind: string)
      requires Valid()
      modifies this
      ensures Valid() && counter > old(counter)
      ensures rows == old(rows) + [Event(run, CountRun(old(rows), run), old(counter), kind)]
    {
      var m := SelectMax(run);
      var e := Event(run, m + 1, counter, kind);
      AppendKeeps(rows, e);
      rows := rows + [e];
      counter := counter + 1;
    }

    /**
    The retrying append.  With at least one attempt, a call that returns has committed exactly one event; a call that
    raises has committed none.  With no attempt at all it returns and commits nothing.
    */
    method AppendSafe(run: nat, kind: string, faults: nat -> Fault, maxRetries: nat) returns (result: Outcome)
      requires Valid()
      modifies this
      ensures Valid() && counter >= old(counter)
      ensures
        var k := FirstStop(faults, maxRetries, 0);
        result == if maxRetries == 0 || (k < maxRetries && faults(k) == NoFault) then Returned
                  else if k < maxRetries then Raised(Other) else Raised(Integrity)
      ensures result.Returned? && maxRetries > 0 ==>
                exists g :: old(counter) <= g < counter &&
                            rows == old(rows) + [Event(run, CountRun(old(rows), run), g, kind)]
      ensures result.Raised? || maxRetries == 0 ==> rows == old(rows)
    {
      var last := NoFault;
      var attempt := 0;
      while attempt < maxRetries
        invariant 0 <= attempt <= maxRetries
        invariant Valid() && rows == old(rows) && counter >= old(counter)
        invariant FirstStop(faults, maxRetries, 0) == FirstStop(faults, maxRetries, attempt)
        invariant last == if attempt == 0 then NoFault else Integrity
      {
        var fault := faults(attempt);
        if fault == NoFault {
          AppendOnce(run, kind);
          return Returned;
        }
        if fault == Other {
          return Raised(Other);
        }
        counter := counter + 1;  // the identity value is spent
        last := fault;
        attempt := attempt + 1;
      }
      if last != NoFault {
        return Raised(last);
      }
      return Returned;
    }
  }
}
