/**
The memory lifecycle.  Every call reads its items without a lock and writes its changes when its session commits, so two
calls can overlap: `Look` is the reading half of a call in a session of its own, `Write` the writing half, and `Do` a
call that nothing overlaps.
*/
module Memory {
  import opened Types

  datatype MemoryStatus = Candidate | Approved | AutoApproved | Active | Superseded | Expired | Rejected | Deleted

  datatype Item = Item(
    content: string, confidence: real, expires: Option<int>, status: MemoryStatus, verified: bool)

  datatype Kind = Supersedes | Contradicts

  datatype Relation = Relation(source: nat, target: nat, kind: Kind)

  datatype Call =
    | Create(content: string, confidence: real, ttl: Option<int>, now: int)
    | Approve(id: nat, auto: bool)
    | Reject(id: nat)
    | MarkActive(id: nat)
    | Supersede(oldId: nat, newId: nat)
    | LinkContradiction(a: nat, b: nat)
    | Sweep(now: int)
    | Promote(now: int, threshold: real, enoughRuns: bool)

  datatype Change = Change(id: nat, to: MemoryStatus)

  /** What a call will write, as it decided when it read. */
  datatype Plan = Plan(changes: seq<Change>, edges: seq<Relation>, created: seq<Item>)

  /** A call that has read and has not written yet. */
  datatype Pending = Pending(call: Call, plan: Plan)

  datatype Store = Store(items: seq<Item>, relations: seq<Relation>, pending: map<nat, Pending>)

  datatype Op = Do(call: Call) | Look(session: nat, call: Call) | Write(session: nat)

  predicate Retired(st: MemoryStatus) {
    st in {Superseded, Expired, Rejected, Deleted}
  }

  /** The statuses a search may return. */
  predicate Current(st: MemoryStatus) {
    st in {Active, Approved, AutoApproved}
  }

  function Clamp(x: real): (c: real)
    ensures 0.0 <= c <= 1.0
  {
    if x < 0.0 then 0.0 else if x > 1.0 then 1.0 else x
  }

  /** A time to live of zero counts as none. */
  function NewItem(content: string, confidence: real, ttl: Option<int>, now: int): (i: Item) {
    var expires := if ttl.Some? && ttl.value != 0 then Some(now + ttl.value) else None;
    Item(content, Clamp(confidence), expires, Candidate, false)
  }

  predicate Due(i: Item, now: int) {
    i.expires.Some? && i.expires.value <= now && i.status !in {Expired, Deleted, Superseded}
  }

  predicate Promotable(i: Item, now: int, threshold: real) {
    i.status == Candidate && i.confidence > threshold && (i.expires.None? || i.expires.value > now)
  }

  /** The changes of the sweep to the first `n` items. */
  function DueChanges(items: seq<Item>, n: nat, now: int): (changes: seq<Change>)
    requires n <= |items|
  {
    if n == 0 then []
    else
      var before := DueChanges(items, n - 1, now);
      if Due(items[n - 1], now) then before + [Change(n - 1, Expired)] else before
  }

  function Promotions(items: seq<Item>, n: nat, now: int, threshold: real): (changes: seq<Change>)
    requires n <= |items|
  {
    if n == 0 then []
    else
      var before := Promotions(items, n - 1, now, threshold);
      if Promotable(items[n - 1], now, threshold) then before + [Change(n - 1, AutoApproved)] else before
  }

  /** The checks of supersede, in its order. */
  predicate MaySupersede(items: seq<Item>, o: nat, n: nat) {
    n < |items| && items[n].status == Active && o < |items| && o != n
  }

  /** The object mapper writes no column whose value is the one it read. */
  function ChangeTo(items: seq<Item>, id: nat, to: MemoryStatus): (changes: seq<Change>)
    requires id < |items|
  {
    if items[id].status == to then [] else [Change(id, to)]
  }

  /** The reading half of a call. */
  function Planned(items: seq<Item>, call: Call): (p: Plan) {
    match call
    case Create(content, confidence, ttl, now) => Plan([], [], [NewItem(content, confidence, ttl, now)])
    case Approve(id, auto) =>
      if id >= |items| || items[id].status != Candidate then Plan([], [], [])
      else Plan([Change(id, if auto then AutoApproved else Approved)], [], [])
    case Reject(id) => if id >= |items| then Plan([], [], []) else Plan(ChangeTo(items, id, Rejected), [], [])
    case MarkActive(id) =>
      if id >= |items| || items[id].status !in {Approved, AutoApproved} then Plan([], [], [])
      else Plan([Change(id, Active)], [], [])
    case Supersede(o, n) =>
      if !MaySupersede(items, o, n) then Plan([], [], [])
      else Plan(ChangeTo(items, o, Superseded), [Relation(n, o, Supersedes)], [])
    case LinkContradiction(a, b) =>
      if a < |items| && b < |items| then Plan([], [Relation(a, b, Contradicts)], []) else Plan([], [], [])
    case Sweep(now) => Plan(DueChanges(items, |items|, now), [], [])
    case Promote(now, threshold, enough) =>
      Plan(if enough then Promotions(items, |items|, now, threshold) else [], [], [])
  }

  /** Approval and activation also mark an item as verified. */
  function Changed(i: Item, to: MemoryStatus): (i': Item) {
    i.(status := to, verified := i.verified || Current(to))
  }

  function Applied(items: seq<Item>, changes: seq<Change>): (items': seq<Item>)
    ensures |items'| == |items|
  {
    if changes == [] then items
    else
      var before := Applied(items, changes[..|changes| - 1]);
      var c := changes[|changes| - 1];
      if c.id < |items| then before[c.id := Changed(before[c.id], c.to)] else before
  }

  /** The writing half of a call, over whatever the rows say now. */
  function Apply(s: Store, p: Plan): (s': Store) {
    s.(items := Applied(s.items, p.changes) + p.created, relations := s.relations + p.edges)
  }

  function Step(s: Store, op: Op): (s': Store)
    ensures |s'.items| >= |s.items|
  {
    match op
    case Do(call) => Apply(s, Planned(s.items, call))
    case Look(t, call) => s.(pending := s.pending[t := Pending(call, Planned(s.items, call))])
    case Write(t) => if t in s.pending then Apply(s, s.pending[t].plan).(pending := s.pending - {t}) else s
  }

  function Init(): (s: Store) {
    Store([], [], map[])
  }

  function Exec(s: Store, ops: seq<Op>): (s': Store)
    ensures |s'.items| >= |s.items|
  {
    if ops == [] then s else Step(Exec(s, ops[..|ops| - 1]), ops[|ops| - 1])
  }

  /** The state after the first `k` operations. */
  function At(s: Store, ops: seq<Op>, k: nat): (s': Store)
    requires k <= |ops|
    ensures |s'.items| >= |s.items|
  {
    Exec(s, ops[..k])
  }

  lemma AtNext(s: Store, ops: seq<Op>, k: nat)
    requires k < |ops|
    ensures At(s, ops, k + 1) == Step(At(s, ops, k), ops[k])
  {
    hide Step;
    assert ops[..k + 1][..k] == ops[..k];
  }

  lemma {:induction false} ExecJoin(s: Store, first: seq<Op>, second: seq<Op>)
    ensures Exec(s, first + second) == Exec(Exec(s, first), second)
  {
    hide Step;
    if second == [] {
      assert first + second == first;
    } else {
      var n := |second| - 1;
      assert (first + second)[..|first + second| - 1] == first + second[..n];
      ExecJoin(s, first, second[..n]);
    }
  }

  // ---------------------------------------------------------------------------------------------
  // Retirement
  // ---------------------------------------------------------------------------------------------

  /** The status the changes leave an item with, if they touch it. */
  function Target(changes: seq<Change>, id: nat): (to: Option<MemoryStatus>) {
    if changes == [] then None
    else if changes[|changes| - 1].id == id then Some(changes[|changes| - 1].to)
    else Target(changes[..|changes| - 1], id)
  }

  lemma {:induction false} AppliedStatus(items: seq<Item>, changes: seq<Change>, id: nat)
    requires id < |items|
    ensures Applied(items, changes)[id].status ==
            if Target(changes, id).Some? then Target(changes, id).value else items[id].status
  {
    if changes != [] {
      AppliedStatus(items, changes[..|changes| - 1], id);
    }
  }

  lemma {:induction false} DueTarget(items: seq<Item>, n: nat, now: int, id: nat)
    requires n <= |items|
    ensures Target(DueChanges(items, n, now), id) == if id < n && Due(items[id], now) then Some(Expired) else None
  {
    if n > 0 {
      DueTarget(items, n - 1, now, id);
    }
  }

  lemma {:induction false} PromotionTarget(items: seq<Item>, n: nat, now: int, threshold: real, id: nat)
    requires n <= |items|
    ensures Target(Promotions(items, n, now, threshold), id) ==
            if id < n && Promotable(items[id], now, threshold) then Some(AutoApproved) else None
  {
    if n > 0 {
      PromotionTarget(items, n - 1, now, threshold, id);
    }
  }

  lemma OneTarget(c: Change, id: nat)
    ensures Target([c], id) == if c.id == id then Some(c.to) else None
    ensures Target([], id) == None
  {
    assert [c][..0] == [];
  }

  /** A call brings an item back only if it read it as not retired. */
  lemma PlanRetires(items: seq<Item>, call: Call, id: nat)
    requires id < |items| && Retired(items[id].status)
    ensures
      var to := Target(Planned(items, call).changes, id);
      to.Some? ==> Retired(to.value)
  {
    hide Target, DueChanges, Promotions;
    match call
    case Approve(k, auto) => OneTarget(Change(k, if auto then AutoApproved else Approved), id);
    case Reject(k) => OneTarget(Change(k, Rejected), id);
    case MarkActive(k) => OneTarget(Change(k, Active), id);
    case Supersede(o, n) => OneTarget(Change(o, Superseded), id);
    case Sweep(now) => DueTarget(items, |items|, now, id);
    case Promote(now, threshold, enough) =>
      PromotionTarget(items, |items|, now, threshold, id);
      OneTarget(Change(0, Active), id);
    case Create(_, _, _, _) => OneTarget(Change(0, Active), id);
    case LinkContradiction(_, _) => OneTarget(Change(0, Active), id);
  }

  /** The step writes a plan that approves or activates item `id`. */
  predicate Revives(s: Store, op: Op, id: nat) {
    && op.Write? && op.session in s.pending
    && var to := Target(s.pending[op.session].plan.changes, id);
       to.Some? && !Retired(to.value)
  }

  /** A retired item leaves retirement exactly by a late write of a call that had read it before. */
  lemma StepRetires(s: Store, op: Op, id: nat)
    requires id < |s.items| && Retired(s.items[id].status)
    ensures Retired(Step(s, op).items[id].status) <==> !Revives(s, op, id)
  {
    hide Target, Applied, Planned;
    match op
    case Do(call) =>
      PlanRetires(s.items, call, id);
      AppliedStatus(s.items, Planned(s.items, call).changes, id);
    case Look(_, _) =>
    case Write(t) => if t in s.pending { AppliedStatus(s.items, s.pending[t].plan.changes, id); }
  }

  /**
  A retired item stays retired exactly as long as no late write finds it retired and approves or activates it: a call
  that nothing overlaps never brings an item back.
  */
  lemma RetiredForEver(s: Store, ops: seq<Op>, id: nat)
    requires id < |s.items| && Retired(s.items[id].status)
    ensures (forall k | 0 <= k <= |ops| :: Retired(At(s, ops, k).items[id].status)) <==>
            (forall k | 0 <= k < |ops| :: !Revives(At(s, ops, k), ops[k], id))
  {
    hide Step, Revives, Exec;
    if forall k | 0 <= k <= |ops| :: Retired(At(s, ops, k).items[id].status) {
      forall k | 0 <= k < |ops| ensures !Revives(At(s, ops, k), ops[k], id) {
        AtNext(s, ops, k);
        StepRetires(At(s, ops, k), ops[k], id);
        assert Retired(At(s, ops, k + 1).items[id].status);
      }
    }
    if forall k | 0 <= k < |ops| :: !Revives(At(s, ops, k), ops[k], id) {
      forall k | 0 <= k <= |ops| ensures Retired(At(s, ops, k).items[id].status) { NeverRevived(s, ops, id, k); }
    }
  }

  lemma {:induction false} NeverRevived(s: Store, ops: seq<Op>, id: nat, k: nat)
    requires id < |s.items| && Retired(s.items[id].status) && k <= |ops|
    requires forall j | 0 <= j < |ops| :: !Revives(At(s, ops, j), ops[j], id)
    ensures Retired(At(s, ops, k).items[id].status)
  {
    hide Step, Revives;
    if k == 0 {
      assert ops[..0] == [];
    } else {
      NeverRevived(s, ops, id, k - 1);
      AtNext(s, ops, k - 1);
      StepRetires(At(s, ops, k - 1), ops[k - 1], id);
    }
  }

  // ---------------------------------------------------------------------------------------------
  // The supersedes graph
  // ---------------------------------------------------------------------------------------------

  /** A plan writes one edge at most, and no self-loop. */
  predicate PlanOk(items: seq<Item>, p: Plan) {
    && |p.edges| <= 1
    && (forall i | 0 <= i < |p.edges| :: p.edges[i].source < |items| && p.edges[i].target < |items|)
    && (forall i | 0 <= i < |p.edges| :: p.edges[i].kind == Supersedes ==> p.edges[i].source != p.edges[i].target)
  }

  /** What every interleaving keeps. */
  predicate Inv(s: Store) {
    && (forall k | 0 <= k < |s.relations| :: s.relations[k].source < |s.items| && s.relations[k].target < |s.items|)
    && (forall t | t in s.pending :: PlanOk(s.items, s.pending[t].plan))
  }

  lemma PlannedOk(items: seq<Item>, call: Call)
    ensures PlanOk(items, Planned(items, call))
  {
    hide DueChanges, Promotions;
  }

  lemma StepKeeps(s: Store, op: Op)
    requires Inv(s)
    ensures Inv(Step(s, op))
  {
    hide Planned, Applied;
    var s' := Step(s, op);
    if !op.Write? { PlannedOk(s.items, op.call); }
    forall t | t in s'.pending ensures PlanOk(s'.items, s'.pending[t].plan) {
      if t in s.pending { assert PlanOk(s.items, s.pending[t].plan); }
    }
    if op.Write? && op.session in s.pending { assert PlanOk(s.items, s.pending[op.session].plan); }
  }

  lemma {:induction false} InvAlways(ops: seq<Op>)
    ensures Inv(Exec(Init(), ops))
  {
    hide Step, Inv;
    if ops == [] {
      assert Inv(Init()) by { InitOk(); }
    } else {
      InvAlways(ops[..|ops| - 1]);
      StepKeeps(Exec(Init(), ops[..|ops| - 1]), ops[|ops| - 1]);
    }
  }

  lemma InitOk()
    ensures Inv(Init())
  {
  }

  /** A path through supersedes edges, as positions in the relations table. */
  predicate IsPath(rel: seq<Relation>, p: seq<nat>) {
    && p != []
    && (forall i | 0 <= i < |p| :: p[i] < |rel| && rel[p[i]].kind == Supersedes)
    && (forall i | 0 <= i < |p| - 1 :: rel[p[i]].target == rel[p[i + 1]].source)
  }

  predicate IsCycle(rel: seq<Relation>, p: seq<nat>) {
    IsPath(rel, p) && rel[p[|p| - 1]].target == rel[p[0]].source
  }

  ghost predicate Acyclic(rel: seq<Relation>) {
    forall p: seq<nat> :: !IsCycle(rel, p)
  }

  ghost predicate Reaches(rel: seq<Relation>, x: nat, y: nat) {
    exists p: seq<nat> :: IsPath(rel, p) && rel[p[0]].source == x && rel[p[|p| - 1]].target == y
  }

  lemma PathInLonger(rel: seq<Relation>, e: Relation, p: seq<nat>)
    requires forall i | 0 <= i < |p| :: p[i] != |rel|
    ensures IsPath(rel + [e], p) <==> IsPath(rel, p)
  {
    var all := rel + [e];
    if IsPath(all, p) {
      forall i | 0 <= i < |p| ensures p[i] < |rel| && rel[p[i]] == all[p[i]] { }
    }
    if IsPath(rel, p) {
      forall i | 0 <= i < |p| ensures rel[p[i]] == all[p[i]] { }
    }
  }

  lemma Rotate(rel: seq<Relation>, c: seq<nat>, k: nat)
    requires IsCycle(rel, c) && k < |c|
    ensures IsCycle(rel, c[k..] + c[..k])
  {
    var d := c[k..] + c[..k];
    forall i | 0 <= i < |d| - 1 ensures rel[d[i]].target == rel[d[i + 1]].source {
      if i < |c| - k - 1 {
        assert d[i] == c[k + i] && d[i + 1] == c[k + i + 1];
      } else if i > |c| - k - 1 {
        assert d[i] == c[i - (|c| - k)] && d[i + 1] == c[i + 1 - (|c| - k)];
      }
    }
  }

  /** The part of a cycle between the new edge and its next occurrence leads back through old edges only. */
  lemma BackPath(rel: seq<Relation>, e: Relation, c: seq<nat>)
    requires IsCycle(rel + [e], c) && c[0] == |rel| && e.source != e.target
    ensures Reaches(rel, e.target, e.source)
  {
    var all := rel + [e];
    var q := 1;
    while q < |c| && c[q] != |rel|
      invariant 1 <= q <= |c|
      invariant forall i | 1 <= i < q :: c[i] != |rel|
    {
      q := q + 1;
    }
    assert |c| > 1 ==> all[c[0]].target == all[c[0 + 1]].source;
    assert q > 1;
    var p := c[1..q];
    forall i | 0 <= i < |p| - 1 ensures all[p[i]].target == all[p[i + 1]].source {
      assert all[c[i + 1]].target == all[c[i + 1 + 1]].source;
    }
    PathInLonger(rel, e, p);
    assert all[c[0]].target == all[c[0 + 1]].source;
    if q < |c| { assert all[c[q - 1]].target == all[c[q - 1 + 1]].source; }
    assert IsPath(rel, p) && rel[p[0]].source == e.target && rel[p[|p| - 1]].target == e.source;
  }

  lemma NewEdgeCycle(rel: seq<Relation>, e: Relation, c: seq<nat>)
    requires IsCycle(rel + [e], c)
    ensures IsCycle(rel, c) || e.source == e.target || Reaches(rel, e.target, e.source)
  {
    if k :| 0 <= k < |c| && c[k] == |rel| {
      Rotate(rel + [e], c, k);
      if e.source != e.target { BackPath(rel, e, c[k..] + c[..k]); }
    } else {
      PathInLonger(rel, e, c);
    }
  }

  lemma CycleStays(rel: seq<Relation>, e: Relation, c: seq<nat>)
    requires IsCycle(rel, c)
    ensures IsCycle(rel + [e], c)
  {
    PathInLonger(rel, e, c);
  }

  lemma CloseCycle(rel: seq<Relation>, e: Relation)
    requires e.kind == Supersedes && Reaches(rel, e.target, e.source)
    ensures !Acyclic(rel + [e])
  {
    var p: seq<nat> :| IsPath(rel, p) && rel[p[0]].source == e.target && rel[p[|p| - 1]].target == e.source;
    var all, c := rel + [e], p + [|rel|];
    PathInLonger(rel, e, p);
    forall i | 0 <= i < |c| - 1 ensures all[c[i]].target == all[c[i + 1]].source {
      if i < |p| - 1 { assert all[p[i]].target == all[p[i + 1]].source; }
    }
    assert IsCycle(all, c);
  }

  lemma ContradictionIsNoEdge(rel: seq<Relation>, e: Relation)
    requires e.kind == Contradicts
    ensures Acyclic(rel + [e]) <==> Acyclic(rel)
  {
    hide IsPath;
    if Acyclic(rel) {
      forall c: seq<nat> ensures !IsCycle(rel + [e], c) { if IsCycle(rel + [e], c) { NotThrough(rel, e, c); } }
    } else {
      var c: seq<nat> :| IsCycle(rel, c);
      CycleStays(rel, e, c);
    }
  }

  lemma NotThrough(rel: seq<Relation>, e: Relation, c: seq<nat>)
    requires e.kind == Contradicts && IsCycle(rel + [e], c)
    ensures IsCycle(rel, c)
  {
    forall i | 0 <= i < |c| ensures c[i] != |rel| { assert (rel + [e])[c[i]].kind == Supersedes; }
    PathInLonger(rel, e, c);
  }

  /** The exact condition under which one more supersedes edge keeps the graph acyclic. */
  lemma EdgeKeepsAcyclic(rel: seq<Relation>, e: Relation)
    requires e.kind == Supersedes && e.source != e.target
    ensures Acyclic(rel + [e]) <==> Acyclic(rel) && !Reaches(rel, e.target, e.source)
  {
    hide IsPath, IsCycle;
    if Reaches(rel, e.target, e.source) { CloseCycle(rel, e); }
    if Acyclic(rel) && !Reaches(rel, e.target, e.source) {
      forall c: seq<nat> ensures !IsCycle(rel + [e], c) { if IsCycle(rel + [e], c) { NewEdgeCycle(rel, e, c); } }
    }
    if Acyclic(rel + [e]) {
      forall c: seq<nat> ensures !IsCycle(rel, c) { if IsCycle(rel, c) { CycleStays(rel, e, c); } }
    }
  }

  /** The edges a step writes. */
  function EdgesOf(s: Store, op: Op): (edges: seq<Relation>) {
    match op
    case Do(call) => Planned(s.items, call).edges
    case Look(_, _) => []
    case Write(t) => if t in s.pending then s.pending[t].plan.edges else []
  }

  /** No supersedes edge of the step closes a path: the old item does not reach the new one. */
  ghost predicate SafeEdges(s: Store, op: Op) {
    forall i | 0 <= i < |EdgesOf(s, op)| ::
      EdgesOf(s, op)[i].kind == Supersedes ==> !Reaches(s.relations, EdgesOf(s, op)[i].target, EdgesOf(s, op)[i].source)
  }

  lemma StepAcyclic(s: Store, op: Op)
    requires Inv(s)
    ensures Acyclic(Step(s, op).relations) <==> Acyclic(s.relations) && SafeEdges(s, op)
  {
    hide Acyclic, Reaches, Planned, Applied;
    var edges := EdgesOf(s, op);
    assert Step(s, op).relations == s.relations + edges;
    EdgesOk(s, op);
    if edges == [] {
      assert s.relations + edges == s.relations;
    } else {
      assert edges == [edges[0]];
      if edges[0].kind == Supersedes {
        EdgeKeepsAcyclic(s.relations, edges[0]);
      } else {
        ContradictionIsNoEdge(s.relations, edges[0]);
      }
    }
  }

  /** A supersede call that writes late keeps the graph acyclic exactly when its old item does not reach its new one. */
  lemma LateWrite(ops: seq<Op>, t: nat, o: nat, n: nat)
    requires t in Exec(Init(), ops).pending
    requires Exec(Init(), ops).pending[t].plan.edges == [Relation(n, o, Supersedes)]
    ensures
      var s := Exec(Init(), ops);
      Acyclic(Step(s, Write(t)).relations) <==> Acyclic(s.relations) && !Reaches(s.relations, o, n)
  {
    hide Exec, Acyclic, Reaches;
    InvAlways(ops);
    var s := Exec(Init(), ops);
    StepAcyclic(s, Write(t));
    assert EdgesOf(s, Write(t))[0] == Relation(n, o, Supersedes);
  }

  lemma EdgesOk(s: Store, op: Op)
    requires Inv(s)
    ensures |EdgesOf(s, op)| <= 1
    ensures forall i | 0 <= i < |EdgesOf(s, op)| ::
              EdgesOf(s, op)[i].kind == Supersedes ==> EdgesOf(s, op)[i].source != EdgesOf(s, op)[i].target
  {
    if op.Do? { PlannedOk(s.items, op.call); }
  }

  /**
  The supersedes relation is acyclic after a schedule exactly when no edge was written, by a whole call or by a late
  write, whose old item already reached its new one.
  */
  lemma {:induction false} AcyclicExactly(ops: seq<Op>)
    ensures Acyclic(Exec(Init(), ops).relations) <==>
            (forall k | 0 <= k < |ops| :: SafeEdges(At(Init(), ops, k), ops[k]))
  {
    hide Step, Acyclic, SafeEdges, Inv;
    if ops == [] {
      NoCycle();
    } else {
      var n := |ops| - 1;
      AcyclicExactly(ops[..n]);
      InvAlways(ops[..n]);
      StepAcyclic(Exec(Init(), ops[..n]), ops[n]);
      assert forall k | 0 <= k < n :: ops[..n][..k] == ops[..k];
      assert forall k | 0 <= k < n :: At(Init(), ops[..n], k) == At(Init(), ops, k) && ops[..n][k] == ops[k];
      assert At(Init(), ops, n) == Exec(Init(), ops[..n]);
    }
  }

  lemma NoCycle()
    ensures Acyclic([])
  {
  }

  // ---------------------------------------------------------------------------------------------
  // Schedules that bring no retired item back
  // ---------------------------------------------------------------------------------------------

  /** The step finds no retired item that it approves or activates. */
  predicate BringsNobodyBack(s: Store, op: Op) {
    forall id | 0 <= id < |s.items| && Retired(s.items[id].status) :: !Revives(s, op, id)
  }

  predicate Unrevived(ops: seq<Op>) {
    forall k | 0 <= k < |ops| :: BringsNobodyBack(At(Init(), ops, k), ops[k])
  }

  predicate EdgeOk(items: seq<Item>, e: Relation) {
    e.kind == Supersedes ==> e.target < |items| && Retired(items[e.target].status)
  }

  /** The old item of a pending supersede call is retired already, or will be. */
  predicate PendingOk(items: seq<Item>, p: Plan) {
    forall i | 0 <= i < |p.edges| && p.edges[i].kind == Supersedes ::
      && p.edges[i].target < |items|
      && (Retired(items[p.edges[i].target].status) || Target(p.changes, p.edges[i].target) == Some(Superseded))
  }

  predicate RetireInv(s: Store) {
    && (forall k | 0 <= k < |s.relations| :: EdgeOk(s.items, s.relations[k]))
    && (forall t | t in s.pending :: PendingOk(s.items, s.pending[t].plan))
  }

  lemma PlannedRetires(items: seq<Item>, call: Call)
    ensures PendingOk(items, Planned(items, call))
  {
    hide Target, DueChanges, Promotions;
    if call.Supersede? { OneTarget(Change(call.oldId, Superseded), call.oldId); }
  }

  lemma WrittenEdges(s: Store, p: Plan, i: nat)
    requires PendingOk(s.items, p) && i < |p.edges| && p.edges[i].kind == Supersedes
    requires Retired(s.items[p.edges[i].target].status) ==> Retired(Apply(s, p).items[p.edges[i].target].status)
    ensures EdgeOk(Apply(s, p).items, p.edges[i])
  {
    AppliedStatus(s.items, p.changes, p.edges[i].target);
  }

  lemma StaysRetired(s: Store, op: Op, id: nat)
    requires BringsNobodyBack(s, op) && id < |s.items| && Retired(s.items[id].status)
    ensures Retired(Step(s, op).items[id].status)
  {
    hide Revives, Step;
    StepRetires(s, op, id);
  }

  lemma RetireKeeps(s: Store, op: Op)
    requires RetireInv(s) && BringsNobodyBack(s, op)
    ensures RetireInv(Step(s, op))
  {
    hide Planned, Applied, Target, BringsNobodyBack;
    var s' := Step(s, op);
    var p := if op.Write? then (if op.session in s.pending then s.pending[op.session].plan else Plan([], [], []))
             else Planned(s.items, op.call);
    assert PendingOk(s.items, p) by { if !op.Write? { PlannedRetires(s.items, op.call); } }
    forall k | 0 <= k < |s'.relations| ensures EdgeOk(s'.items, s'.relations[k]) {
      if k < |s.relations| {
        assert EdgeOk(s.items, s.relations[k]);
        if s.relations[k].kind == Supersedes { StaysRetired(s, op, s.relations[k].target); }
      } else {
        var i := k - |s.relations|;
        assert s'.relations[k] == p.edges[i];
        if p.edges[i].kind == Supersedes {
          if Retired(s.items[p.edges[i].target].status) { StaysRetired(s, op, p.edges[i].target); }
          WrittenEdges(s, p, i);
        }
      }
    }
    forall t | t in s'.pending ensures PendingOk(s'.items, s'.pending[t].plan) {
      PendingStays(s, op, s'.pending[t].plan);
    }
  }

  lemma PendingStays(s: Store, op: Op, p: Plan)
    requires PendingOk(s.items, p) && BringsNobodyBack(s, op)
    ensures PendingOk(Step(s, op).items, p)
  {
    hide Step, Target, BringsNobodyBack;
    forall i | 0 <= i < |p.edges| && p.edges[i].kind == Supersedes && Retired(s.items[p.edges[i].target].status)
      ensures Retired(Step(s, op).items[p.edges[i].target].status)
    {
      StaysRetired(s, op, p.edges[i].target);
    }
  }

  lemma {:induction false} RetireAlways(ops: seq<Op>)
    requires Unrevived(ops)
    ensures RetireInv(Exec(Init(), ops))
  {
    hide Step, RetireInv, BringsNobodyBack;
    if ops == [] {
      assert RetireInv(Init()) by { NothingRetired(); }
    } else {
      var n := |ops| - 1;
      assert Unrevived(ops[..n]) by {
        assert forall k | 0 <= k < n :: ops[..n][..k] == ops[..k];
        forall k | 0 <= k < n ensures BringsNobodyBack(At(Init(), ops[..n], k), ops[..n][k]) {
          assert At(Init(), ops[..n], k) == At(Init(), ops, k);
        }
      }
      RetireAlways(ops[..n]);
      assert At(Init(), ops, n) == Exec(Init(), ops[..n]);
      RetireKeeps(Exec(Init(), ops[..n]), ops[n]);
    }
  }

  lemma NothingRetired()
    ensures RetireInv(Init())
  {
  }

  lemma RetiredIsNotReached(s: Store, x: nat, y: nat)
    requires RetireInv(s) && y < |s.items| && !Retired(s.items[y].status)
    ensures !Reaches(s.relations, x, y)
  {
    forall p: seq<nat> | IsPath(s.relations, p) ensures s.relations[p[|p| - 1]].target != y {
      assert EdgeOk(s.items, s.relations[p[|p| - 1]]);
    }
  }

  /** As long as no late write brings a retired item back, nothing leads to an item that is active. */
  lemma ActiveIsNotReached(ops: seq<Op>, x: nat, y: nat)
    requires Unrevived(ops) && y < |Exec(Init(), ops).items| && Exec(Init(), ops).items[y].status == Active
    ensures !Reaches(Exec(Init(), ops).relations, x, y)
  {
    RetireAlways(ops);
    RetiredIsNotReached(Exec(Init(), ops), x, y);
  }

  /** The step writes no plan, or one that its call would make again. */
  predicate UpToDate(s: Store, op: Op) {
    op.Write? && op.session in s.pending ==> s.pending[op.session].plan == Planned(s.items, s.pending[op.session].call)
  }

  predicate Undisturbed(ops: seq<Op>) {
    forall k | 0 <= k < |ops| :: UpToDate(At(Init(), ops, k), ops[k])
  }

  lemma UpToDateIsUnrevived(s: Store, op: Op)
    requires UpToDate(s, op)
    ensures BringsNobodyBack(s, op)
  {
    hide Planned, Target;
    forall id | 0 <= id < |s.items| && Retired(s.items[id].status) ensures !Revives(s, op, id) {
      if op.Write? && op.session in s.pending { PlanRetires(s.items, s.pending[op.session].call, id); }
    }
  }

  lemma UndisturbedIsUnrevived(ops: seq<Op>)
    requires Undisturbed(ops)
    ensures Unrevived(ops)
  {
    hide UpToDate, BringsNobodyBack, Exec;
    forall k | 0 <= k < |ops| ensures BringsNobodyBack(At(Init(), ops, k), ops[k]) {
      UpToDateIsUnrevived(At(Init(), ops, k), ops[k]);
    }
  }

  lemma UpToDateIsSafe(s: Store, op: Op)
    requires RetireInv(s) && UpToDate(s, op)
    ensures SafeEdges(s, op)
  {
    hide Reaches, RetireInv, DueChanges, Promotions;
    forall i | 0 <= i < |EdgesOf(s, op)| && EdgesOf(s, op)[i].kind == Supersedes
      ensures !Reaches(s.relations, EdgesOf(s, op)[i].target, EdgesOf(s, op)[i].source)
    {
      RetiredIsNotReached(s, EdgesOf(s, op)[i].target, EdgesOf(s, op)[i].source);
    }
  }

  /**
  Although the code rejects self-loops only, the supersedes relation is acyclic after any sequence of calls that nothing
  overlaps, and of overlapping ones whose reads are still true when they write: an item is retired by the edge into it
  and the edge out of it needs it active.
  */
  lemma SupersedesIsAcyclic(ops: seq<Op>)
    requires Undisturbed(ops)
    ensures Acyclic(Exec(Init(), ops).relations)
  {
    hide UpToDate, Unrevived, SafeEdges, Acyclic, RetireInv;
    forall k | 0 <= k < |ops| ensures SafeEdges(At(Init(), ops, k), ops[k]) {
      UndisturbedPrefix(ops, k);
      UndisturbedIsUnrevived(ops[..k]);
      RetireAlways(ops[..k]);
      UpToDateIsSafe(At(Init(), ops, k), ops[k]);
    }
    AcyclicExactly(ops);
  }

  lemma UndisturbedPrefix(ops: seq<Op>, k: nat)
    requires Undisturbed(ops) && k < |ops|
    ensures Undisturbed(ops[..k]) && UpToDate(At(Init(), ops, k), ops[k])
  {
    hide UpToDate;
    forall j | 0 <= j < k ensures UpToDate(At(Init(), ops[..k], j), ops[..k][j]) {
      assert ops[..k][..j] == ops[..j];
      assert At(Init(), ops[..k], j) == At(Init(), ops, j);
    }
  }

  // ---------------------------------------------------------------------------------------------
  // Calls that overlap
  // ---------------------------------------------------------------------------------------------

  lemma ExecMore(ops: seq<Op>, op: Op)
    ensures Exec(Init(), ops + [op]) == Step(Exec(Init(), ops), op)
  {
    hide Step;
    assert (ops + [op])[..|ops|] == ops;
  }

  function Fresh(): (i: Item) {
    Item("", 0.9, None, Candidate, false)
  }

  function Marked(st: MemoryStatus): (i: Item) {
    Item("", 0.9, None, st, true)
  }

  lemma OneChange(items: seq<Item>, c: Change)
    ensures Applied(items, [c]) == if c.id < |items| then items[c.id := Changed(items[c.id], c.to)] else items
    ensures Applied(items, []) == items
  {
    assert [c][..0] == [];
  }

  lemma DoneOne(s: Store, call: Call, c: Change)
    requires Planned(s.items, call) == Plan([c], [], []) && c.id < |s.items|
    ensures Step(s, Do(call)) == s.(items := s.items[c.id := Changed(s.items[c.id], c.to)])
  {
    hide Planned, Applied;
    OneChange(s.items, c);
    assert s.items[c.id := Changed(s.items[c.id], c.to)] + [] == s.items[c.id := Changed(s.items[c.id], c.to)];
    assert s.relations + [] == s.relations;
  }

  lemma TwoCandidates() returns (ops: seq<Op>)
    ensures Exec(Init(), ops) == Store([Fresh(), Fresh()], [], map[]) && forall k | 0 <= k < |ops| :: ops[k].Do?
  {
    var create := Do(Create("", 0.9, None, 0));
    var none: seq<Op> := [];
    ExecMore(none, create);
    ExecMore(none + [create], create);
    ops := none + [create] + [create];
  }

  /** Item 0 approved, item 1 active. */
  lemma OneActive() returns (ops: seq<Op>)
    ensures Exec(Init(), ops) == Store([Marked(Approved), Marked(Active)], [], map[])
    ensures forall k | 0 <= k < |ops| :: ops[k].Do?
  {
    hide Exec, Step;
    var two := TwoCandidates();
    var s0 := Store([Fresh(), Fresh()], [], map[]);
    ExecMore(two, Do(Approve(0, false)));
    DoneOne(s0, Approve(0, false), Change(0, Approved));
    var o1, s1 := two + [Do(Approve(0, false))], Store([Marked(Approved), Fresh()], [], map[]);
    assert Exec(Init(), o1).items == s1.items;
    ExecMore(o1, Do(Approve(1, false)));
    DoneOne(s1, Approve(1, false), Change(1, Approved));
    var o2, s2 := o1 + [Do(Approve(1, false))], Store([Marked(Approved), Marked(Approved)], [], map[]);
    assert Exec(Init(), o2).items == s2.items;
    ExecMore(o2, Do(MarkActive(1)));
    DoneOne(s2, MarkActive(1), Change(1, Active));
    ops := o2 + [Do(MarkActive(1))];
    assert Exec(Init(), ops).items == [Marked(Approved), Marked(Active)];
  }

  lemma TwoEdgesClose(rel: seq<Relation>)
    requires rel == [Relation(1, 0, Supersedes), Relation(0, 1, Supersedes)]
    ensures !Acyclic(rel)
  {
    assert IsCycle(rel, [0, 1]);
  }

  /** The effect of superseding item `o` by item `n`, read as active and not yet superseded. */
  lemma SupersedesOne(s: Store, p: Plan, o: nat, n: nat)
    requires p == Plan([Change(o, Superseded)], [Relation(n, o, Supersedes)], []) && o < |s.items|
    ensures Apply(s, p) == s.(items := s.items[o := Changed(s.items[o], Superseded)],
                              relations := s.relations + [Relation(n, o, Supersedes)])
  {
    hide Applied;
    OneChange(s.items, p.changes[0]);
    assert s.items[o := Changed(s.items[o], Superseded)] + [] == s.items[o := Changed(s.items[o], Superseded)];
  }

  /** Two overlapping supersede calls on two active items, each replacing the other, make a cycle. */
  lemma RaceMakesCycle()
    ensures exists ops: seq<Op> :: !Acyclic(Exec(Init(), ops).relations)
  {
    hide Exec, Apply, Acyclic;
    var one := OneActive();
    var s0 := Store([Marked(Approved), Marked(Active)], [], map[]);
    ExecMore(one, Do(MarkActive(0)));
    DoneOne(s0, MarkActive(0), Change(0, Active));
    var both, s1 := one + [Do(MarkActive(0))], Store([Marked(Active), Marked(Active)], [], map[]);
    assert Exec(Init(), both).items == s1.items;
    var p1 := Plan([Change(0, Superseded)], [Relation(1, 0, Supersedes)], []);
    var p2 := Plan([Change(1, Superseded)], [Relation(0, 1, Supersedes)], []);
    ExecMore(both, Look(1, Supersede(0, 1)));
    var o1 := both + [Look(1, Supersede(0, 1))];
    ExecMore(o1, Look(2, Supersede(1, 0)));
    var o2 := o1 + [Look(2, Supersede(1, 0))];
    var s2 := s1.(pending := map[1 := Pending(Supersede(0, 1), p1), 2 := Pending(Supersede(1, 0), p2)]);
    assert Exec(Init(), o2) == s2;
    ExecMore(o2, Write(1));
    SupersedesOne(s2, p1, 0, 1);
    var o3, s3 := o2 + [Write(1)], Exec(Init(), o2 + [Write(1)]);
    assert s3.relations == [Relation(1, 0, Supersedes)] && 2 in s3.pending && s3.pending[2].plan == p2;
    ExecMore(o3, Write(2));
    SupersedesOne(s3, p2, 1, 0);
    TwoEdgesClose(Exec(Init(), o3 + [Write(2)]).relations);
  }

  predicate OnlyActivationsOverlap(ops: seq<Op>) {
    forall k | 0 <= k < |ops| :: ops[k].Look? ==> ops[k].call.MarkActive?
  }

  /** Item 0 was superseded by item 1 and then activated by a call that had read it before. */
  lemma BroughtBack() returns (ops: seq<Op>)
    ensures OnlyActivationsOverlap(ops)
    ensures Exec(Init(), ops).items == [Marked(Active), Marked(Active)]
    ensures Exec(Init(), ops).relations == [Relation(1, 0, Supersedes)]
  {
    hide Exec, Apply;
    var one := OneActive();
    var s0 := Store([Marked(Approved), Marked(Active)], [], map[]);
    var p := Plan([Change(0, Active)], [], []);
    ExecMore(one, Look(1, MarkActive(0)));
    var o1, s1 := one + [Look(1, MarkActive(0))], s0.(pending := map[1 := Pending(MarkActive(0), p)]);
    assert Exec(Init(), o1) == s1;
    var p1 := Plan([Change(0, Superseded)], [Relation(1, 0, Supersedes)], []);
    ExecMore(o1, Do(Supersede(0, 1)));
    assert Planned(s1.items, Supersede(0, 1)) == p1;
    SupersedesOne(s1, p1, 0, 1);
    var o2, s2 := o1 + [Do(Supersede(0, 1))], Exec(Init(), o1 + [Do(Supersede(0, 1))]);
    assert s2.items == [Marked(Superseded), Marked(Active)] && s2.pending == s1.pending;
    ExecMore(o2, Write(1));
    WritesOne(s2, p, Change(0, Active));
    ops := o2 + [Write(1)];
  }

  /**
  A late activation brings a superseded item back, and then two whole supersede calls, one before it and one after, make
  a cycle.
  */
  lemma StaleActivationMakesCycle()
    ensures exists ops: seq<Op> :: OnlyActivationsOverlap(ops) && !Acyclic(Exec(Init(), ops).relations)
  {
    hide Exec, Apply, Acyclic;
    var back := BroughtBack();
    var s := Exec(Init(), back);
    var p := Plan([Change(1, Superseded)], [Relation(0, 1, Supersedes)], []);
    ExecMore(back, Do(Supersede(1, 0)));
    assert Planned(s.items, Supersede(1, 0)) == p;
    SupersedesOne(s, p, 1, 0);
    var ops := back + [Do(Supersede(1, 0))];
    TwoEdgesClose(Exec(Init(), ops).relations);
    assert OnlyActivationsOverlap(ops);
  }

  lemma WritesOne(s: Store, p: Plan, c: Change)
    requires p == Plan([c], [], []) && c.id < |s.items|
    ensures Apply(s, p) == s.(items := s.items[c.id := Changed(s.items[c.id], c.to)])
  {
    hide Applied;
    OneChange(s.items, c);
    assert s.items[c.id := Changed(s.items[c.id], c.to)] + [] == s.items[c.id := Changed(s.items[c.id], c.to)];
    assert s.relations + [] == s.relations;
  }

  /** A promotion that selected a candidate writes over a rejection committed since. */
  lemma StalePromotionRevives()
    ensures exists ops: seq<Op>, more: seq<Op> ::
              var s, s' := Exec(Init(), ops), Exec(Init(), ops + more);
              && 0 < |s.items| <= |s'.items|
              && s.items[0].status == Rejected && s'.items[0].status == AutoApproved
  {
    hide Exec, Apply, Applied, Target, Promotions;
    var two := TwoCandidates();
    var s0 := Store([Fresh(), Fresh()], [], map[]);
    var call := Promote(0, 0.85, true);
    var p := Planned(s0.items, call);
    ExecMore(two, Look(1, call));
    var o1, s1 := two + [Look(1, call)], s0.(pending := map[1 := Pending(call, p)]);
    assert Exec(Init(), o1) == s1;
    ExecMore(o1, Do(Reject(0)));
    DoneOne(s1, Reject(0), Change(0, Rejected));
    var o2 := o1 + [Do(Reject(0))];
    var s2 := Exec(Init(), o2);
    assert s2.items[0].status == Rejected && s2.pending == s1.pending;
    ExecMore(o2, Write(1));
    PromotionTarget(s0.items, 2, 0, 0.85, 0);
    LateStatus(s2, p, 0);
  }

  lemma LateStatus(s: Store, p: Plan, id: nat)
    requires id < |s.items|
    ensures Apply(s, p).items[id].status ==
            if Target(p.changes, id).Some? then Target(p.changes, id).value else s.items[id].status
  {
    AppliedStatus(s.items, p.changes, id);
  }

  // ---------------------------------------------------------------------------------------------
  // Retrieval
  // ---------------------------------------------------------------------------------------------

  predicate Unexpired(i: Item, now: int) {
    i.expires.None? || i.expires.value > now
  }

  predicate Retrievable(i: Item, now: int) {
    Current(i.status) && i.verified && Unexpired(i, now)
  }

  predicate Honest(items: seq<Item>) {
    forall i | 0 <= i < |items| :: Current(items[i].status) ==> items[i].verified
  }

  lemma {:induction false} AppliedHonest(items: seq<Item>, changes: seq<Change>)
    requires Honest(items)
    ensures Honest(Applied(items, changes))
  {
    if changes != [] {
      AppliedHonest(items, changes[..|changes| - 1]);
    }
  }

  /** Plans create candidates only. */
  predicate CreatesCandidates(p: Plan) {
    forall i | 0 <= i < |p.created| :: p.created[i].status == Candidate
  }

  lemma {:induction false} AlwaysHonest(ops: seq<Op>)
    ensures Honest(Exec(Init(), ops).items)
    ensures forall t | t in Exec(Init(), ops).pending :: CreatesCandidates(Exec(Init(), ops).pending[t].plan)
  {
    if ops != [] {
      AlwaysHonest(ops[..|ops| - 1]);
      HonestStep(Exec(Init(), ops[..|ops| - 1]), ops[|ops| - 1]);
    }
  }

  lemma HonestStep(s: Store, op: Op)
    requires Honest(s.items) && forall t | t in s.pending :: CreatesCandidates(s.pending[t].plan)
    ensures Honest(Step(s, op).items)
    ensures forall t | t in Step(s, op).pending :: CreatesCandidates(Step(s, op).pending[t].plan)
  {
    hide Applied, DueChanges, Promotions;
    if op.Write? {
      if op.session in s.pending { AppliedHonest(s.items, s.pending[op.session].plan.changes); }
    } else {
      AppliedHonest(s.items, Planned(s.items, op.call).changes);
    }
  }

  /**
  In every reachable state, whatever overlapped, an item is retrieved without being active exactly when it is approved
  and unexpired: the verification filter never decides.
  */
  lemma RetrievedExactly(ops: seq<Op>, id: nat, now: int)
    requires id < |Exec(Init(), ops).items|
    ensures
      var i := Exec(Init(), ops).items[id];
      var unexpired := i.expires.None? || now < i.expires.value;
      && (Retrievable(i, now) <==> i.status in {Active, Approved, AutoApproved} && unexpired)
      && (Retrievable(i, now) && i.status != Active <==> i.status in {Approved, AutoApproved} && unexpired)
  {
    AlwaysHonest(ops);
  }

  /** As long as no late write brings it back, an item that anything supersedes is never retrieved again. */
  lemma SupersededIsNeverRetrieved(ops: seq<Op>, more: seq<Op>, k: nat, now: int)
    requires Unrevived(ops + more)
    requires k < |Exec(Init(), ops).relations| && Exec(Init(), ops).relations[k].kind == Supersedes
    ensures
      var id := Exec(Init(), ops).relations[k].target;
      var later := Exec(Init(), ops + more).items;
      id < |later| && !Retrievable(later[id], now)
  {
    hide Step;
    RetireAlways(ops + more);
    ExecJoin(Init(), ops, more);
    EdgesStay(Exec(Init(), ops), more);
    var s := Exec(Init(), ops + more);
    assert EdgeOk(s.items, s.relations[k]);
  }

  lemma {:induction false} EdgesStay(s: Store, ops: seq<Op>)
    ensures s.relations <= Exec(s, ops).relations
  {
    hide Planned, Applied;
    if ops != [] {
      EdgesStay(s, ops[..|ops| - 1]);
    }
  }

  /** Retrieval does return an item that never was active. */
  lemma RetrievesMoreThanActive()
    ensures exists ops: seq<Op>, now: int ::
              var items := Exec(Init(), ops).items;
              |items| == 2 && items[0].status != Active && Retrievable(items[0], now)
  {
    hide Exec, Step;
    var two := TwoCandidates();
    var s0 := Store([Fresh(), Fresh()], [], map[]);
    ExecMore(two, Do(Approve(0, false)));
    DoneOne(s0, Approve(0, false), Change(0, Approved));
    assert Retrievable(Exec(Init(), two + [Do(Approve(0, false))]).items[0], 0);
  }

  // ---------------------------------------------------------------------------------------------
  // What a whole call does to every item
  // ---------------------------------------------------------------------------------------------

  lemma {:induction false} AppliedItem(items: seq<Item>, changes: seq<Change>, id: nat, to: MemoryStatus)
    requires id < |items| && forall k | 0 <= k < |changes| && changes[k].id == id :: changes[k].to == to
    ensures Applied(items, changes)[id] == if Target(changes, id) == None then items[id] else Changed(items[id], to)
  {
    if changes != [] {
      AppliedItem(items, changes[..|changes| - 1], id, to);
    }
  }

  lemma {:induction false} DueAreExpired(items: seq<Item>, n: nat, now: int)
    requires n <= |items|
    ensures forall k | 0 <= k < |DueChanges(items, n, now)| :: DueChanges(items, n, now)[k].to == Expired
  {
    if n > 0 { DueAreExpired(items, n - 1, now); }
  }

  lemma {:induction false} PromotionsApprove(items: seq<Item>, n: nat, now: int, threshold: real)
    requires n <= |items|
    ensures
      var changes := Promotions(items, n, now, threshold);
      forall k | 0 <= k < |changes| :: changes[k].to == AutoApproved
  {
    if n > 0 {
      hide Promotable;
      PromotionsApprove(items, n - 1, now, threshold);
      assert Promotions(items, n, now, threshold) ==
             Promotions(items, n - 1, now, threshold) +
             if Promotable(items[n - 1], now, threshold) then [Change(n - 1, AutoApproved)] else [];
    }
  }

  /**
  After a sweep nothing that is still in use is past its time, whatever had time left is as before, and an item that was
  changed only became EXPIRED; items that were expired, deleted or superseded are not touched.
  */
  lemma SweepTakes(s: Store, now: int, id: nat)
    requires id < |s.items|
    ensures
      var s' := Step(s, Do(Sweep(now)));
      var i, i' := s.items[id], s'.items[id];
      && |s'.items| == |s.items| && s'.relations == s.relations
      && (i'.status !in {Expired, Deleted, Superseded} ==> i'.expires.None? || now < i'.expires.value)
      && (i.expires.None? || now < i.expires.value ==> i' == i)
      && (i.status in {Expired, Deleted, Superseded} ==> i' == i)
      && (i' == i || i' == i.(status := Expired))
  {
    hide Applied, DueChanges;
    ItemsSwept(s.items, now);
  }

  /** Once enough runs completed, a promotion approves exactly the candidates above the threshold with time left. */
  lemma PromoteTakes(s: Store, now: int, threshold: real, enough: bool, id: nat)
    requires id < |s.items|
    ensures
      var s' := Step(s, Do(Promote(now, threshold, enough)));
      var i, i' := s.items[id], s'.items[id];
      && |s'.items| == |s.items| && s'.relations == s.relations
      && i' == if enough && i.status == Candidate && threshold < i.confidence &&
                  (i.expires.Some? ==> now < i.expires.value)
               then i.(status := AutoApproved, verified := true) else i
  {
    hide Applied, Promotions;
    ItemsPromoted(s.items, now, threshold);
    OneChange(s.items, Change(0, Active));
  }

  /** The calls that concern one item: the statuses they need, and what they leave of the item they name. */
  lemma NamedItemTakes(s: Store, call: Call, id: nat)
    requires call.Approve? || call.Reject? || call.MarkActive?
    requires id < |s.items|
    ensures
      var s' := Step(s, Do(call));
      var i, i' := s.items[id], s'.items[id];
      && |s'.items| == |s.items| && s'.relations == s.relations
      && i' == match call
               case Approve(k, auto) =>
                 if k == id && i.status == Candidate
                 then i.(status := if auto then AutoApproved else Approved, verified := true) else i
               case Reject(k) => if k == id then i.(status := Rejected) else i
               case MarkActive(k) =>
                 if k == id && i.status in {Approved, AutoApproved} then i.(status := Active, verified := true) else i
  {
    hide Applied;
    match call
    case Approve(k, auto) => OneChange(s.items, Change(k, if auto then AutoApproved else Approved));
    case Reject(k) => OneChange(s.items, Change(k, Rejected));
    case MarkActive(k) => OneChange(s.items, Change(k, Active));
  }

  /**
  One item supersedes another exactly when it is active and the other exists and is a different one; then the other is
  retired and one edge leads to it.  A contradiction is one edge and changes no item.
  */
  lemma LinkTakes(s: Store, a: nat, b: nat)
    ensures
      var s' := Step(s, Do(Supersede(a, b)));
      if a < |s.items| && b < |s.items| && a != b && s.items[b].status == Active then
        && s'.relations == s.relations + [Relation(b, a, Supersedes)]
        && s'.items == s.items[a := s.items[a].(status := Superseded)]
      else s'.relations == s.relations && s'.items == s.items
    ensures
      var s' := Step(s, Do(LinkContradiction(a, b)));
      && s'.items == s.items
      && s'.relations == s.relations + if a < |s.items| && b < |s.items| then [Relation(a, b, Contradicts)] else []
  {
    hide Applied;
    OneChange(s.items, Change(a, Superseded));
    assert s.relations + [] == s.relations;
  }

  /** What a call decides to write is a change: no status is written over itself when it is read. */
  lemma OnlyDifferences(items: seq<Item>, call: Call, id: nat)
    requires id < |items|
    ensures Target(Planned(items, call).changes, id) != Some(items[id].status)
  {
    hide Target, DueChanges, Promotions;
    match call
    case Approve(k, auto) => OneTarget(Change(k, if auto then AutoApproved else Approved), id);
    case Reject(k) => OneTarget(Change(k, Rejected), id);
    case MarkActive(k) => OneTarget(Change(k, Active), id);
    case Supersede(o, n) => OneTarget(Change(o, Superseded), id);
    case Sweep(now) => DueTarget(items, |items|, now, id);
    case Promote(now, threshold, enough) =>
      PromotionTarget(items, |items|, now, threshold, id);
      OneTarget(Change(0, Active), id);
    case Create(_, _, _, _) => OneTarget(Change(0, Active), id);
    case LinkContradiction(_, _) => OneTarget(Change(0, Active), id);
  }

  /** A new item is an unverified candidate with its confidence cut to the unit interval; a lifetime of zero is none. */
  lemma CreateTakes(s: Store, content: string, confidence: real, ttl: Option<int>, now: int)
    ensures
      var s' := Step(s, Do(Create(content, confidence, ttl, now)));
      var n := |s.items|;
      && |s'.items| == n + 1 && s'.items[..n] == s.items && s'.relations == s.relations
      && s'.items[n].content == content && s'.items[n].status == Candidate && !s'.items[n].verified
      && (0.0 <= confidence <= 1.0 ==> s'.items[n].confidence == confidence)
      && (confidence < 0.0 ==> s'.items[n].confidence == 0.0) && (confidence > 1.0 ==> s'.items[n].confidence == 1.0)
      && (s'.items[n].expires == None <==> ttl == None || ttl == Some(0))
      && (s'.items[n].expires.Some? ==> s'.items[n].expires.value - now == ttl.value)
  {
    hide Applied;
    OneChange(s.items, Change(0, Active));
    assert s.relations + [] == s.relations;
  }

  // ---------------------------------------------------------------------------------------------
  // The service
  // ---------------------------------------------------------------------------------------------

  /** The service on its two tables, one call at a time. */
  class MemoryService {
    var items: seq<Item>
    var relations: seq<Relation>

    ghost function View(): (s: Store)
      reads this
    {
      Store(items, relations, map[])
    }

    constructor ()
      ensures View() == Init()
    {
      items, relations := [], [];
    }

    method CreateCandidate(content: string, confidence: real, ttl: Option<int>, now: int) returns (id: nat)
      modifies this
      ensures View() == Step(old(View()), Do(Create(content, confidence, ttl, now)))
      ensures id == |old(items)| && items[..id] == old(items)
      ensures |items| == id + 1 && items[id].status == Candidate && !items[id].verified
      ensures items[id].content == content && items[id].expires == if ttl in {None, Some(0)} then None
                                                                   else Some(now + ttl.value)
    {
      id := |items|;
      items := items + [NewItem(content, confidence, ttl, now)];
    }

    method ApproveItem(id: nat, auto: bool) returns (done: bool)
      modifies this
      ensures View() == Step(old(View()), Do(Approve(id, auto)))
      ensures done <==> id < |old(items)| && old(items)[id].status == Candidate
      ensures done ==> items == old(items)[id := old(items)[id].(status := if auto then AutoApproved else Approved,
                                                                 verified := true)]
      ensures !done ==> items == old(items)
    {
      hide Applied;
      OneChange(items, Change(id, if auto then AutoApproved else Approved));
      if id >= |items| {
        return false;
      }
      if items[id].status != Candidate {
        return false;
      }
      items := items[id := items[id].(status := if auto then AutoApproved else Approved, verified := true)];
      return true;
    }

    /** Rejection needs no particular status, and concerns one item. */
    method RejectItem(id: nat)
      modifies this
      ensures View() == Step(old(View()), Do(Reject(id)))
      ensures relations == old(relations) && |items| == |old(items)|
      ensures forall k | 0 <= k < |items| ::
                items[k] == if k == id then old(items)[k].(status := Rejected) else old(items)[k]
    {
      hide Applied;
      OneChange(items, Change(id, Rejected));
      if id < |items| {
        items := items[id := items[id].(status := Rejected)];
      }
    }

    /** An item is active afterwards exactly when it was before, or was approved and is the one meant. */
    method Activate(id: nat)
      modifies this
      ensures View() == Step(old(View()), Do(MarkActive(id)))
      ensures relations == old(relations) && |items| == |old(items)|
      ensures forall k | 0 <= k < |items| ::
                items[k].status == Active <==>
                  || old(items)[k].status == Active
                  || (k == id && old(items)[k].status in {Approved, AutoApproved})
    {
      hide Applied;
      OneChange(items, Change(id, Active));
      if id < |items| {
        if items[id].status in {Approved, AutoApproved} {
          items := items[id := items[id].(status := Active, verified := true)];
        }
      }
    }

    method SupersedeItem(oldId: nat, newId: nat)
      modifies this
      ensures View() == Step(old(View()), Do(Supersede(oldId, newId)))
      ensures
        if newId < |old(items)| && old(items)[newId].status == Active && oldId < |old(items)| && oldId != newId then
          && relations == old(relations) + [Relation(newId, oldId, Supersedes)]
          && items == old(items)[oldId := old(items)[oldId].(status := Superseded)]
        else relations == old(relations) && items == old(items)
    {
      hide Applied;
      OneChange(items, Change(oldId, Superseded));
      if newId >= |items| {
        return;
      }
      if items[newId].status != Active {
        return;
      }
      if oldId >= |items| {
        return;
      }
      if oldId == newId {
        return;
      }
      relations := relations + [Relation(newId, oldId, Supersedes)];
      items := items[oldId := items[oldId].(status := Superseded)];
    }

    method ExpireSweep(now: int) returns (count: nat)
      modifies this
      ensures View() == Step(old(View()), Do(Sweep(now)))
      ensures relations == old(relations) && |items| == |old(items)|
      ensures forall k | 0 <= k < |items| ::
                var i := old(items)[k];
                items[k] == if i.expires.Some? && i.expires.value <= now && i.status !in {Expired, Deleted, Superseded}
                            then i.(status := Expired) else i
      ensures count == |set k | 0 <= k < |items| && items[k].status != old(items)[k].status|
    {
      count := 0;
      ghost var was := items;
      hide Applied, Changed, Target;
      OneChange(was, Change(0, Expired));
      for k := 0 to |items|
        invariant |items| == |was| && relations == old(relations)
        invariant items == Applied(was, DueChanges(was, k, now))
        invariant forall j | k <= j < |was| :: items[j] == was[j]
        invariant count == |DueChanges(was, k, now)|
      {
        if Due(items[k], now) {
          AppliedMore(was, DueChanges(was, k, now), Change(k, Expired));
          ChangedItem(items[k]);
          items := items[k := items[k].(status := Expired)];
          count := count + 1;
        }
      }
      assert items + [] == items && relations + [] == relations;
      ItemsSwept(was, now);
    }

    method AutoPromote(now: int, threshold: real, completedRuns: nat, minRuns: nat) returns (count: nat)
      modifies this
      ensures View() == Step(old(View()), Do(Promote(now, threshold, completedRuns >= minRuns)))
      ensures relations == old(relations) && |items| == |old(items)|
      ensures forall k | 0 <= k < |items| ::
                var i := old(items)[k];
                items[k] == if completedRuns >= minRuns && i.status == Candidate && i.confidence > threshold &&
                               (i.expires.None? || i.expires.value > now)
                            then i.(status := AutoApproved, verified := true) else i
      ensures count == |set k | 0 <= k < |items| && items[k].status != old(items)[k].status|
    {
      count := 0;
      ghost var was := items;
      assert relations + [] == relations && items + [] == items;
      if completedRuns < minRuns {
        return;
      }
      hide Applied, Changed;
      OneChange(was, Change(0, AutoApproved));
      for k := 0 to |items|
        invariant |items| == |was| && relations == old(relations)
        invariant items == Applied(was, Promotions(was, k, now, threshold))
        invariant forall j | k <= j < |was| :: items[j] == was[j]
        invariant count == |Promotions(was, k, now, threshold)|
      {
        if Promotable(items[k], now, threshold) {
          AppliedMore(was, Promotions(was, k, now, threshold), Change(k, AutoApproved));
          ChangedItem(items[k]);
          items := items[k := items[k].(status := AutoApproved, verified := true)];
          count := count + 1;
        }
      }
      assert items + [] == items;
      ItemsPromoted(was, now, threshold);
    }
  }

  lemma ItemsSwept(was: seq<Item>, now: int)
    ensures
      var changes := DueChanges(was, |was|, now);
      var items := Applied(was, changes);
      && (forall k | 0 <= k < |was| ::
            items[k] ==
              if was[k].expires.Some? && was[k].expires.value <= now && was[k].status !in {Expired, Deleted, Superseded}
              then was[k].(status := Expired) else was[k])
      && |changes| == |set k | 0 <= k < |was| && items[k].status != was[k].status|
  {
    hide Applied, DueChanges, Target;
    var changes := DueChanges(was, |was|, now);
    DueAreExpired(was, |was|, now);
    forall k | 0 <= k < |was|
      ensures Applied(was, changes)[k] == if Due(was[k], now) then was[k].(status := Expired) else was[k]
    {
      DueTarget(was, |was|, now, k);
      AppliedItem(was, changes, k, Expired);
    }
    DueCount(was, |was|, now);
    assert (set k | 0 <= k < |was| && Applied(was, changes)[k].status != was[k].status) ==
           (set k | 0 <= k < |was| && Due(was[k], now));
  }

  lemma {:induction false} DueCount(items: seq<Item>, n: nat, now: int)
    requires n <= |items|
    ensures |DueChanges(items, n, now)| == |set k | 0 <= k < n && Due(items[k], now)|
  {
    if n > 0 {
      DueCount(items, n - 1, now);
      assert (set k | 0 <= k < n && Due(items[k], now)) ==
             (set k | 0 <= k < n - 1 && Due(items[k], now)) + if Due(items[n - 1], now) then {n - 1} else {};
    }
  }

  lemma ItemsPromoted(was: seq<Item>, now: int, threshold: real)
    ensures
      var changes := Promotions(was, |was|, now, threshold);
      var items := Applied(was, changes);
      && (forall k | 0 <= k < |was| ::
            items[k] ==
              if was[k].status == Candidate && was[k].confidence > threshold &&
                 (was[k].expires.None? || was[k].expires.value > now)
              then was[k].(status := AutoApproved, verified := true) else was[k])
      && |changes| == |set k | 0 <= k < |was| && items[k].status != was[k].status|
  {
    hide Applied, Promotions, Target;
    var changes := Promotions(was, |was|, now, threshold);
    PromotionsApprove(was, |was|, now, threshold);
    forall k | 0 <= k < |was|
      ensures Applied(was, changes)[k] ==
              if Promotable(was[k], now, threshold) then was[k].(status := AutoApproved, verified := true) else was[k]
    {
      PromotionTarget(was, |was|, now, threshold, k);
      AppliedItem(was, changes, k, AutoApproved);
    }
    PromotionCount(was, |was|, now, threshold);
    assert (set k | 0 <= k < |was| && Applied(was, changes)[k].status != was[k].status) ==
           (set k | 0 <= k < |was| && Promotable(was[k], now, threshold));
  }

  lemma {:induction false} PromotionCount(items: seq<Item>, n: nat, now: int, threshold: real)
    requires n <= |items|
    ensures |Promotions(items, n, now, threshold)| == |set k | 0 <= k < n && Promotable(items[k], now, threshold)|
  {
    if n > 0 {
      PromotionCount(items, n - 1, now, threshold);
      assert (set k | 0 <= k < n && Promotable(items[k], now, threshold)) ==
             (set k | 0 <= k < n - 1 && Promotable(items[k], now, threshold)) +
             if Promotable(items[n - 1], now, threshold) then {n - 1} else {};
    }
  }

  lemma ChangedItem(i: Item)
    ensures Changed(i, AutoApproved) == i.(status := AutoApproved, verified := true)
    ensures Changed(i, Expired) == i.(status := Expired)
  {
  }

  lemma AppliedMore(items: seq<Item>, changes: seq<Change>, c: Change)
    requires c.id < |items|
    ensures Applied(items, changes + [c]) ==
            Applied(items, changes)[c.id := Changed(Applied(items, changes)[c.id], c.to)]
  {
    assert (changes + [c])[..|changes|] == changes;
  }
}
