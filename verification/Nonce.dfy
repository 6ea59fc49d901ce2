/** Nonces: strictly increasing numbers within a process, and within a database row shared by many processes. */
module Nonce {
  import opened Types

  const MAX_NONCE: int := 9_999_999_999_999_999_999

  /** A lane hands out numbers; `stuck` means its lock is held for ever. */
  datatype Lane = Lane(last: int, stuck: bool)

  /** A call: with a clock reading, or with a candidate, which may not be a number. */
  datatype Call = Next(clock: int) | EnsureGreater(candidate: Option<int>)

  function NextValue(last: int, clock: int): (v: int) {
    if clock <= last || clock > MAX_NONCE then last + 1 else clock
  }

  function GreaterValue(last: int, n: int): (v: int) {
    if n <= last then last + 1 else n
  }

  /** The number a call returns; none when it waits for ever. */
  function Answer(l: Lane, c: Call): (v: Option<int>) {
    if l.stuck then None
    else
      match c
      case Next(clock) => Some(NextValue(l.last, clock))
      case EnsureGreater(None) => None
      case EnsureGreater(Some(n)) => Some(GreaterValue(l.last, n))
  }

  function AfterCall(l: Lane, c: Call): (l': Lane) {
    var v := Answer(l, c);
    if v.Some? then l.(last := v.value) else l.(stuck := true)
  }

  function AfterCalls(l: Lane, calls: seq<Call>): (l': Lane) {
    if calls == [] then l else AfterCall(AfterCalls(l, calls[..|calls| - 1]), calls[|calls| - 1])
  }

  /** All numbers handed out, in order. */
  function Answers(l: Lane, calls: seq<Call>): (vs: seq<int>) {
    if calls == [] then []
    else
      var v := Answer(AfterCalls(l, calls[..|calls| - 1]), calls[|calls| - 1]);
      var before := Answers(l, calls[..|calls| - 1]);
      if v.Some? then before + [v.value] else before
  }

  predicate Increasing(vs: seq<int>) {
    forall i, j | 0 <= i < j < |vs| :: vs[i] < vs[j]
  }

  /** Whatever the clock does, mixed calls hand out strictly increasing numbers. */
  lemma {:induction false} AnswersIncrease(l: Lane, calls: seq<Call>)
    ensures Increasing(Answers(l, calls))
    ensures forall i | 0 <= i < |Answers(l, calls)| :: l.last < Answers(l, calls)[i] <= AfterCalls(l, calls).last
    ensures l.last <= AfterCalls(l, calls).last
  {
    if calls != [] {
      AnswersIncrease(l, calls[..|calls| - 1]);
    }
  }

  function LargestReading(calls: seq<Call>, start: int): (m: int)
    requires forall i | 0 <= i < |calls| :: calls[i].Next?
    ensures m >= start
  {
    if calls == [] then start
    else
      var m := LargestReading(calls[..|calls| - 1], start);
      var c := calls[|calls| - 1].clock;
      if c > m then c else m
  }

  /** With `next` alone the numbers stay close to the clock. */
  lemma {:induction false} NextStaysClose(l: Lane, calls: seq<Call>)
    requires !l.stuck && forall i | 0 <= i < |calls| :: calls[i].Next?
    ensures !AfterCalls(l, calls).stuck
    ensures AfterCalls(l, calls).last <= LargestReading(calls, l.last) + |calls|
  {
    if calls != [] {
      NextStaysClose(l, calls[..|calls| - 1]);
    }
  }

  /**
  A reading beyond the last number, and of at most 19 digits, is handed out as it is, and so is a candidate beyond it;
  anything else gives the successor of the last number.
  */
  lemma AnswersMean(l: Lane, n: int)
    requires !l.stuck
    ensures Answer(l, Next(n)) == Some(if l.last < n <= 9_999_999_999_999_999_999 then n else l.last + 1)
    ensures Answer(l, EnsureGreater(Some(n))) == Some(if l.last < n then n else l.last + 1)
    ensures Answer(l, EnsureGreater(None)) == None && AfterCall(l, EnsureGreater(None)).stuck
  {
  }

  /** Before the largest number is reached every number fits; from then on none does, in spite of the clamp. */
  lemma ClampFits(l: Lane, clock: int)
    requires !l.stuck
    ensures Answer(l, Next(clock)).value <= 9_999_999_999_999_999_999 <==> l.last < 9_999_999_999_999_999_999
  {
  }

  /** The in-process generator. */
  class MonotonicNonce {
    var last: int
    var held: bool

    function View(): (l: Lane)
      reads this
    {
      Lane(last, held)
    }

    constructor ()
      ensures View() == Lane(0, false)
    {
      last, held := 0, false;
    }

    /** A call on a lock that is held for ever does not return: it gives no number. */
    method NextNonce(clock: int) returns (v: Option<int>)
      modifies this
      ensures v == Answer(old(View()), Next(clock)) && View() == AfterCall(old(View()), Next(clock))
      ensures !old(held) ==>
                v == Some(if old(last) < clock <= 9_999_999_999_999_999_999 then clock else old(last) + 1) && !held
    {
      if held {
        return None;
      }
      var now := clock;
      if now <= last {
        now := last + 1;
      }
      if now > MAX_NONCE {
        now := last + 1;
      }
      last := now;
      return Some(now);
    }

    /** The handler for a candidate that is no number calls `next` under the lock it already holds. */
    method Ensure(candidate: Option<int>) returns (v: Option<int>)
      modifies this
      ensures v == Answer(old(View()), EnsureGreater(candidate))
      ensures View() == AfterCall(old(View()), EnsureGreater(candidate))
      ensures !old(held) && candidate.Some? ==>
                v == Some(if candidate.value > old(last) then candidate.value else old(last) + 1)
    {
      if held {
        return None;
      }
      if candidate.None? {
        held := true;
        return None;
      }
      var n := candidate.value;
      if n <= last {
        n := last + 1;
      }
      last := n;
      return Some(n);
    }
  }

  // ---------------------------------------------------------------------------------------------
  // The database lane of one room and identity
  // ---------------------------------------------------------------------------------------------

  /** The greatest value of the row's integer column. */
  const INT4_MAX: int := 2_147_483_647

  /**
  An open transaction: the process it runs in, the row it selected in the current call if it did, the candidate drawn,
  the value it wrote and not yet committed, and the numbers its calls returned.
  */
  datatype Tx = Tx(process: nat, looked: Option<Option<int>>, drawn: Option<int>, own: Option<int>, outs: seq<int>)

  /**
  `bound` is the greatest value the column can hold; `lock` holds the row lock, or the place of an uncommitted insert in
  the unique index.
  */
  datatype Row = Row(
    bound: int, value: Option<int>, lock: Option<nat>, open: map<nat, Tx>, lanes: map<nat, int>, committed: seq<int>)

  datatype Action =
    | Begin(tx: nat, process: nat)
    | Look(tx: nat)
    | Draw(tx: nat, clock: int)
    | Write(tx: nat)
    | Commit(tx: nat)
    | Abort(tx: nat)

  function Init(bound: int): (r: Row) {
    Row(bound, None, None, map[], map[], [])
  }

  function LaneOf(r: Row, process: nat): (last: int) {
    if process in r.lanes then r.lanes[process] else 0
  }

  function Finish(r: Row, t: nat): (r': Row) {
    r.(open := r.open - {t}, lock := if r.lock == Some(t) then None else r.lock)
  }

  predicate Free(r: Row, t: nat) {
    r.lock == None || r.lock == Some(t)
  }

  function SetTx(r: Row, t: nat, tx: Tx): (r': Row) {
    r.(open := r.open[t := tx])
  }

  /** The flush of the new value: the unique index, the column and the lock decide. */
  function DoWrite(r: Row, t: nat): (r': Row)
    requires t in r.open && r.open[t].looked.Some? && r.open[t].drawn.Some?
  {
    var tx := r.open[t];
    match tx.looked.value
    case None =>
      if !Free(r, t) then r  // waits for the other insert
      else if r.value.Some? then Finish(r, t)  // unique violation
      else if tx.drawn.value > r.bound then Finish(r, t)
      else
        SetTx(r, t, tx.(looked := None, drawn := None, own := tx.drawn, outs := tx.outs + [tx.drawn.value]))
        .(lock := Some(t))
    case Some(last) =>
      var v := GreaterValue(last, tx.drawn.value);
      if v > r.bound then Finish(r, t)
      else SetTx(r, t, tx.(looked := None, drawn := None, own := Some(v), outs := tx.outs + [v]))
  }

  function Step(r: Row, act: Action): (r': Row) {
    match act
    case Begin(t, p) => if t in r.open then r else SetTx(r, t, Tx(p, None, None, None, []))
    case Look(t) =>
      if t !in r.open || r.open[t].looked.Some? then r
      else
        var tx := r.open[t];
        if tx.own.Some? then SetTx(r, t, tx.(looked := Some(tx.own)))
        else if r.value.None? then SetTx(r, t, tx.(looked := Some(None)))
        else if !Free(r, t) then r  // FOR UPDATE waits and then reads the row as it is
        else SetTx(r, t, tx.(looked := Some(r.value))).(lock := Some(t))
    case Draw(t, clock) =>
      if t !in r.open || r.open[t].looked.None? || r.open[t].drawn.Some? then r
      else
        var tx := r.open[t];
        var v := NextValue(LaneOf(r, tx.process), clock);
        SetTx(r, t, tx.(drawn := Some(v))).(lanes := r.lanes[tx.process := v])
    case Write(t) => if t in r.open && r.open[t].looked.Some? && r.open[t].drawn.Some? then DoWrite(r, t) else r
    case Commit(t) =>
      if t !in r.open then r
      else
        var tx := r.open[t];
        Finish(r.(value := if tx.own.Some? then tx.own else r.value, committed := r.committed + tx.outs), t)
    case Abort(t) => Finish(r, t)
  }

  function Exec(r: Row, acts: seq<Action>): (r': Row) {
    if acts == [] then r else Step(Exec(r, acts[..|acts| - 1]), acts[|acts| - 1])
  }

  /** A sequence ends in the given value, or is empty and there is none. */
  predicate EndsIn(vs: seq<int>, v: Option<int>) {
    if vs == [] then v == None else v == Some(vs[|vs| - 1])
  }

  predicate TxOk(r: Row, t: nat, tx: Tx) {
    && EndsIn(tx.outs, tx.own)
    && Increasing(r.committed + tx.outs)
    && (tx.own.Some? ==> r.lock == Some(t))
    && (tx.looked.Some? && tx.looked.value.Some? ==>
          r.lock == Some(t) && tx.looked.value == if tx.own.Some? then tx.own else r.value)
    && (tx.looked == Some(None) ==> tx.own.None?)
  }

  predicate Inv(r: Row) {
    && EndsIn(r.committed, r.value)
    && Increasing(r.committed)
    && (forall t | t in r.open :: TxOk(r, t, r.open[t]))
  }

  lemma OthersOk(r: Row, r': Row, t: nat)
    requires Inv(r) && EndsIn(r'.committed, r'.value) && Increasing(r'.committed)
    requires r'.committed == r.committed && r'.value == r.value
    requires Free(r, t) || r'.lock == r.lock
    requires r'.lock in {r.lock, Some(t), None}
    requires r'.lock == None ==> r.lock == None || r.lock == Some(t)
    requires r'.open.Keys <= r.open.Keys + {t}
    requires forall u | u in r'.open && u != t :: r'.open[u] == r.open[u]
    requires t in r'.open ==> TxOk(r', t, r'.open[t])
    ensures Inv(r')
  {
    hide Increasing, EndsIn;
    forall u | u in r'.open ensures TxOk(r', u, r'.open[u]) {
      if u != t { assert TxOk(r, u, r.open[u]); }
    }
  }

  lemma GrowsBy(vs: seq<int>, v: int)
    requires Increasing(vs) && (vs != [] ==> vs[|vs| - 1] < v)
    ensures Increasing(vs + [v])
  {
  }

  lemma WriteKeeps(r: Row, t: nat)
    requires Inv(r) && t in r.open && r.open[t].looked.Some? && r.open[t].drawn.Some?
    ensures Inv(DoWrite(r, t))
  {
    hide Increasing;
    assert TxOk(r, t, r.open[t]);
    if r.open[t].looked.value == None {
      if Free(r, t) && r.value.None? { FirstIncreases(r, t); }
    } else {
      NextIncreases(r, t);
    }
    OthersOk(r, DoWrite(r, t), t);
  }

  lemma FirstIncreases(r: Row, t: nat)
    requires Inv(r) && t in r.open && r.open[t].looked == Some(None) && r.value.None?
    ensures forall v: int :: Increasing(r.committed + (r.open[t].outs + [v]))
  {
    assert TxOk(r, t, r.open[t]);
    assert r.committed == [] && r.open[t].outs == [];
  }

  lemma NextIncreases(r: Row, t: nat)
    requires Inv(r) && t in r.open && r.open[t].looked.Some? && r.open[t].looked.value.Some?
    ensures forall v: int | v > r.open[t].looked.value.value :: Increasing(r.committed + (r.open[t].outs + [v]))
  {
    var tx := r.open[t];
    assert TxOk(r, t, tx);
    var all := r.committed + tx.outs;
    forall v: int | v > tx.looked.value.value ensures Increasing(r.committed + (tx.outs + [v])) {
      GrowsBy(all, v);
      assert r.committed + (tx.outs + [v]) == all + [v];
    }
  }

  lemma CommitKeeps(r: Row, t: nat)
    requires Inv(r) && t in r.open
    ensures Inv(Step(r, Commit(t)))
  {
    hide Increasing;
    var tx, r' := r.open[t], Step(r, Commit(t));
    assert TxOk(r, t, tx);
    forall u | u in r'.open ensures TxOk(r', u, r'.open[u]) {
      assert TxOk(r, u, r.open[u]);
      if tx.outs == [] {
        assert r.committed + tx.outs == r.committed;
      } else {
        // Only the holder of the lock has written or seen a row.
        assert r.open[u].own.None? && r.open[u].outs == [];
        assert r'.committed + [] == r'.committed;
      }
    }
    if tx.outs == [] { assert r.committed + tx.outs == r.committed; }
  }

  lemma BeginKeeps(r: Row, t: nat, p: nat)
    requires Inv(r) && t !in r.open
    ensures Inv(Step(r, Begin(t, p)))
  {
    hide Increasing;
    assert r.committed + [] == r.committed;
    OthersOk(r, Step(r, Begin(t, p)), t);
  }

  lemma LookKeeps(r: Row, t: nat)
    requires Inv(r) && t in r.open
    ensures Inv(Step(r, Look(t)))
  {
    hide Increasing, EndsIn;
    assert TxOk(r, t, r.open[t]);
    LookedOk(r, t);
    OthersOk(r, Step(r, Look(t)), t);
  }

  lemma LookedOk(r: Row, t: nat)
    requires Inv(r) && t in r.open
    ensures TxOk(Step(r, Look(t)), t, Step(r, Look(t)).open[t])
  {
    hide Increasing, EndsIn;
    assert TxOk(r, t, r.open[t]);
  }

  lemma DrawKeeps(r: Row, t: nat, clock: int)
    requires Inv(r) && t in r.open
    ensures Inv(Step(r, Draw(t, clock)))
  {
    hide Increasing, EndsIn, NextValue;
    assert TxOk(r, t, r.open[t]);
    OthersOk(r, Step(r, Draw(t, clock)), t);
  }

  lemma StepKeeps(r: Row, act: Action)
    requires Inv(r)
    ensures Inv(Step(r, act))
  {
    hide Increasing, DoWrite, EndsIn;
    var r' := Step(r, act);
    match act
    case Begin(t, p) => if t !in r.open { BeginKeeps(r, t, p); }
    case Look(t) => if t in r.open { LookKeeps(r, t); }
    case Draw(t, clock) => if t in r.open { DrawKeeps(r, t, clock); }
    case Write(t) => if t in r.open && r.open[t].looked.Some? && r.open[t].drawn.Some? { WriteKeeps(r, t); }
    case Commit(t) => if t in r.open { CommitKeeps(r, t); }
    case Abort(t) => OthersOk(r, r', t);
  }

  lemma {:induction false} InvAlways(bound: int, acts: seq<Action>)
    ensures Inv(Exec(Init(bound), acts))
  {
    hide Step, Inv;
    if acts == [] {
      assert Inv(Init(bound)) by { InitOk(bound); }
    } else {
      InvAlways(bound, acts[..|acts| - 1]);
      StepKeeps(Exec(Init(bound), acts[..|acts| - 1]), acts[|acts| - 1]);
    }
  }

  lemma InitOk(bound: int)
    ensures Inv(Init(bound))
  {
  }

  /**
  A draw moves the lane of its process to the number drawn, above all it handed out before; what is rolled back is no
  number of the row, but the lane does not go back.
  */
  lemma DrawsMoveTheLane(r: Row, t: nat, clock: int)
    requires t in r.open && r.open[t].looked.Some? && r.open[t].drawn.None?
    ensures
      var p, r1 := r.open[t].process, Step(r, Draw(t, clock));
      && t in r1.open && r1.open[t].drawn == Some(LaneOf(r1, p)) && LaneOf(r1, p) > LaneOf(r, p)
      && r1.value == r.value && r1.committed == r.committed
    ensures
      var r2 := Step(r, Abort(t));
      && t !in r2.open && r2.lock != Some(t) && r2.lanes == r.lanes
      && r2.value == r.value && r2.committed == r.committed
  {
  }

  /**
  For a column of any width, the numbers of committed transactions strictly increase in commit order, across processes
  with skewed clocks.
  */
  lemma CommittedNoncesIncrease(bound: int, acts: seq<Action>)
    ensures Increasing(Exec(Init(bound), acts).committed)
  {
    InvAlways(bound, acts);
  }

  // ---------------------------------------------------------------------------------------------
  // When a number is accepted
  // ---------------------------------------------------------------------------------------------

  /** The number a write comes to. */
  function Proposed(tx: Tx): (v: int)
    requires tx.looked.Some? && tx.drawn.Some?
  {
    if tx.looked.value.None? then tx.drawn.value else GreaterValue(tx.looked.value.value, tx.drawn.value)
  }

  /**
  A write that does not have to wait is accepted exactly when its number fits the column and, for a first number, nobody
  committed a row since the select; otherwise its transaction ends.
  */
  lemma WriteIsAccepted(r: Row, t: nat)
    requires t in r.open && r.open[t].looked.Some? && r.open[t].drawn.Some?
    requires r.open[t].looked == Some(None) ==> Free(r, t)
    ensures
      var tx, r' := r.open[t], DoWrite(r, t);
      && (t in r'.open <==> Proposed(tx) <= r.bound && (tx.looked == Some(None) ==> r.value.None?))
      && (t in r'.open ==> r'.open[t].outs == tx.outs + [Proposed(tx)])
  {
  }

  function OneCall(t: nat, process: nat, clock: int): (acts: seq<Action>) {
    [Begin(t, process), Look(t), Draw(t, clock), Write(t), Commit(t)]
  }

  lemma FiveSteps(r: Row, a1: Action, a2: Action, a3: Action, a4: Action, a5: Action)
    ensures Exec(r, [a1, a2, a3, a4, a5]) == Step(Step(Step(Step(Step(r, a1), a2), a3), a4), a5)
  {
    hide Step;
    var acts := [a1, a2, a3, a4, a5];
    assert acts[..4] == [a1, a2, a3, a4] && acts[..4][..3] == [a1, a2, a3];
    assert acts[..4][..3][..2] == [a1, a2] && acts[..4][..3][..2][..1] == [a1] && acts[..4][..3][..2][..1][..0] == [];
    assert Exec(r, [a1]) == Step(r, a1);
    assert Exec(r, [a1, a2]) == Step(Step(r, a1), a2);
    assert Exec(r, [a1, a2, a3]) == Step(Step(Step(r, a1), a2), a3);
    assert Exec(r, [a1, a2, a3, a4]) == Step(Step(Step(Step(r, a1), a2), a3), a4);
  }

  /**
  From every reachable state in which nobody holds the row, one call in a transaction of its own commits the greater of
  the process's number and the row's successor exactly when that fits the column, and nothing otherwise.
  */
  lemma OneCallCommits(bound: int, acts: seq<Action>, t: nat, process: nat, clock: int)
    requires t !in Exec(Init(bound), acts).open && Exec(Init(bound), acts).lock.None?
    ensures
      var r := Exec(Init(bound), acts);
      var drawn := NextValue(LaneOf(r, process), clock);
      var v := if r.value.None? then drawn else if drawn > r.value.value then drawn else r.value.value + 1;
      Exec(r, OneCall(t, process, clock)).committed == if v <= r.bound then r.committed + [v] else r.committed
  {
    var r := Exec(Init(bound), acts);
    hide Exec, NextValue, DoWrite;
    FiveSteps(r, Begin(t, process), Look(t), Draw(t, clock), Write(t), Commit(t));
    var r3 := Step(Step(Step(r, Begin(t, process)), Look(t)), Draw(t, clock));
    DrawsAlone(r, t, process, clock);
    WriteIsAccepted(r3, t);
    WriteCommitsNothing(r3, t);
  }

  lemma DrawsAlone(r: Row, t: nat, process: nat, clock: int)
    requires t !in r.open && r.lock.None?
    ensures
      var r3 := Step(Step(Step(r, Begin(t, process)), Look(t)), Draw(t, clock));
      && t in r3.open && r3.open[t] == Tx(process, Some(r.value), Some(NextValue(LaneOf(r, process), clock)), None, [])
      && Free(r3, t) && r3.value == r.value && r3.committed == r.committed && r3.bound == r.bound
  {
    hide NextValue;
  }

  lemma WriteCommitsNothing(r: Row, t: nat)
    requires t in r.open && r.open[t].looked.Some? && r.open[t].drawn.Some?
    ensures DoWrite(r, t).committed == r.committed
  {
    hide GreaterValue;
  }

  predicate ModernClocks(acts: seq<Action>) {
    forall i | 0 <= i < |acts| && acts[i].Draw? :: INT4_MAX < acts[i].clock <= MAX_NONCE
  }

  /** Every drawn candidate is beyond the column. */
  predicate DrawnBeyond(r: Row) {
    && r.bound == INT4_MAX
    && forall t | t in r.open :: r.open[t].outs == [] && (r.open[t].drawn.Some? ==> r.open[t].drawn.value > INT4_MAX)
  }

  lemma {:induction false} NothingDrawnFits(acts: seq<Action>)
    requires ModernClocks(acts)
    ensures DrawnBeyond(Exec(Init(INT4_MAX), acts)) && Exec(Init(INT4_MAX), acts).committed == []
  {
    hide Step;
    if acts != [] {
      var n := |acts| - 1;
      NothingDrawnFits(acts[..n]);
      DrawsBeyond(Exec(Init(INT4_MAX), acts[..n]), acts[n]);
    }
  }

  lemma DrawsBeyond(r: Row, act: Action)
    requires DrawnBeyond(r) && r.committed == []
    requires act.Draw? ==> INT4_MAX < act.clock <= MAX_NONCE
    ensures DrawnBeyond(Step(r, act)) && Step(r, act).committed == []
  {
  }

  /**
  The column of the schema holds 32 bits, while a clock in milliseconds passed that range in January 1970: with any
  later clock no transaction ever commits a number.
  */
  lemma NoNonceFitsTheColumn(acts: seq<Action>)
    requires forall i | 0 <= i < |acts| && acts[i].Draw? ::
               2_147_483_647 < acts[i].clock <= 9_999_999_999_999_999_999
    ensures Exec(Init(2_147_483_647), acts).committed == []
  {
    NothingDrawnFits(acts);
  }
}
