/** The context assembler: layered, budgeted selection of prompt segments. */
module Assembler {
  import opened Types
  import Text

  const OUTPUT_RESERVE := 2048
  const BEGIN := "<<<UNTRUSTED_DATA_BEGIN>>>"
  const END := "<<<UNTRUSTED_DATA_END>>>"

  /** The order of the known segment types. */
  const SEQUENCE: seq<string> := [
    "system_policy", "task_goal", "conversation_window", "episodic_memory", "semantic_memory", "procedural_memory",
    "memory", "tool_schemas", "untrusted"]

  datatype Reason = Selected | OverUntrusted | OverBudget

  datatype Segment = Segment(
    kind: string, content: string, tokens: nat, relevance: real, untrusted: bool, reason: Reason)

  predicate Critical(s: Segment) {
    s.kind == "system_policy" || s.kind == "task_goal"
  }

  // ---------------------------------------------------------------------------------------------
  // The processing order, as positions in the list of added segments
  // ---------------------------------------------------------------------------------------------

  /** The positions below `n` of the segments of one type, in the order they were added. */
  function OfType(segs: seq<Segment>, kind: string, n: nat): (order: seq<nat>)
    requires n <= |segs|
  {
    if n == 0 then []
    else
      var before := OfType(segs, kind, n - 1);
      if segs[n - 1].kind == kind then before + [n - 1] else before
  }

  /** The types among the first `n` segments, in order of first appearance. */
  function Kinds(segs: seq<Segment>, n: nat): (kinds: seq<string>)
    requires n <= |segs|
  {
    if n == 0 then []
    else
      var before := Kinds(segs, n - 1);
      if segs[n - 1].kind in before then before else before + [segs[n - 1].kind]
  }

  /** The groups of some types, one after the other. */
  function Grouped(segs: seq<Segment>, kinds: seq<string>): (order: seq<nat>) {
    if kinds == [] then []
    else Grouped(segs, kinds[..|kinds| - 1]) + OfType(segs, kinds[|kinds| - 1], |segs|)
  }

  function Unknown(kinds: seq<string>): (rest: seq<string>) {
    if kinds == [] then []
    else
      var before := Unknown(kinds[..|kinds| - 1]);
      if kinds[|kinds| - 1] in SEQUENCE then before else before + [kinds[|kinds| - 1]]
  }

  predicate InBounds(segs: seq<Segment>, order: seq<nat>) {
    forall i | 0 <= i < |order| :: order[i] < |segs|
  }

  /** Inserts a position behind all positions of at least its relevance. */
  function Insert(segs: seq<Segment>, sorted: seq<nat>, x: nat): (r: seq<nat>)
    requires InBounds(segs, sorted) && x < |segs|
    ensures InBounds(segs, r)
  {
    if sorted == [] then [x]
    else
      var last := sorted[|sorted| - 1];
      if segs[last].relevance >= segs[x].relevance then sorted + [x]
      else Insert(segs, sorted[..|sorted| - 1], x) + [last]
  }

  /** The stable sort by descending relevance. */
  function SortDesc(segs: seq<Segment>, order: seq<nat>): (r: seq<nat>)
    requires InBounds(segs, order)
    ensures InBounds(segs, r)
  {
    if order == [] then []
    else Insert(segs, SortDesc(segs, order[..|order| - 1]), order[|order| - 1])
  }

  lemma {:induction false} OfTypeIs(segs: seq<Segment>, kind: string, n: nat)
    requires n <= |segs|
    ensures forall i | 0 <= i < |OfType(segs, kind, n)| ::
              OfType(segs, kind, n)[i] < n && segs[OfType(segs, kind, n)[i]].kind == kind
    ensures forall i, j | 0 <= i < j < |OfType(segs, kind, n)| :: OfType(segs, kind, n)[i] < OfType(segs, kind, n)[j]
    ensures forall x | 0 <= x < n && segs[x].kind == kind :: x in OfType(segs, kind, n)
  {
    if n > 0 {
      OfTypeIs(segs, kind, n - 1);
    }
  }

  lemma {:induction false} GroupedInBounds(segs: seq<Segment>, kinds: seq<string>)
    ensures InBounds(segs, Grouped(segs, kinds))
  {
    if kinds != [] {
      GroupedInBounds(segs, kinds[..|kinds| - 1]);
      OfTypeIs(segs, kinds[|kinds| - 1], |segs|);
    }
  }

  /** The order in which segments are considered: known types in sequence, then the others by relevance. */
  function Order(segs: seq<Segment>): (order: seq<nat>)
    ensures InBounds(segs, order)
  {
    var rest := Grouped(segs, Unknown(Kinds(segs, |segs|)));
    GroupedInBounds(segs, SEQUENCE);
    GroupedInBounds(segs, Unknown(Kinds(segs, |segs|)));
    Grouped(segs, SEQUENCE) + SortDesc(segs, rest)
  }

  /** The position of a type in the sequence, or its length for an unknown type. */
  function Rank(kinds: seq<string>, kind: string): (r: nat)
    ensures r <= |kinds|
    ensures r < |kinds| ==> kinds[r] == kind
    ensures kind in kinds <==> r < |kinds|
    ensures forall i | 0 <= i < r :: kinds[i] != kind
  {
    if kinds == [] then 0
    else if kinds[0] == kind then 0
    else
      assert kind in kinds <==> kind in kinds[1..];
      1 + Rank(kinds[1..], kind)
  }

  /** Where the type of a segment first appears. */
  function First(segs: seq<Segment>, kind: string): (i: nat)
    ensures i <= |segs|
    ensures forall k | 0 <= k < i :: segs[k].kind != kind
    ensures i < |segs| ==> segs[i].kind == kind
  {
    if segs == [] then 0 else if segs[0].kind == kind then 0 else 1 + First(segs[1..], kind)
  }

  /** Which of two segments is considered first. */
  predicate Before(segs: seq<Segment>, x: nat, y: nat)
    requires x < |segs| && y < |segs|
  {
    var a, b := segs[x], segs[y];
    var ra, rb := Rank(SEQUENCE, a.kind), Rank(SEQUENCE, b.kind);
    if ra != rb then ra < rb
    else if ra < |SEQUENCE| then x < y
    else Ahead(segs, x, y)
  }

  /** Descending relevance, and within equal relevance the order of groups. */
  predicate Ahead(segs: seq<Segment>, x: nat, y: nat)
    requires x < |segs| && y < |segs|
  {
    if segs[x].relevance != segs[y].relevance then segs[x].relevance > segs[y].relevance else Earlier(segs, x, y)
  }

  /** The order of groups by first appearance, and of addition within a group. */
  predicate Earlier(segs: seq<Segment>, x: nat, y: nat)
    requires x < |segs| && y < |segs|
  {
    var fa, fb := First(segs, segs[x].kind), First(segs, segs[y].kind);
    if fa != fb then fa < fb else x < y
  }

  predicate Distinct(kinds: seq<string>) {
    forall i, j | 0 <= i < j < |kinds| :: kinds[i] != kinds[j]
  }

  lemma {:induction false} RankOf(kinds: seq<string>, i: nat)
    requires Distinct(kinds) && i < |kinds|
    ensures Rank(kinds, kinds[i]) == i
  {
    var r := Rank(kinds, kinds[i]);
    assert kinds[i] in kinds;
  }

  lemma {:induction false} RankOfPrefix(kinds: seq<string>, kind: string)
    requires kinds != [] && Distinct(kinds)
    ensures kind in kinds[..|kinds| - 1] ==> Rank(kinds, kind) == Rank(kinds[..|kinds| - 1], kind)
  {
    var before := kinds[..|kinds| - 1];
    if kind in before {
      var r := Rank(before, kind);
      assert kinds[r] == before[r];
      RankOf(kinds, r);
    }
  }

  /** A grouping lists exactly the segments of its types, by type and then by addition. */
  lemma {:induction false} GroupedIs(segs: seq<Segment>, kinds: seq<string>)
    requires Distinct(kinds)
    ensures
      var order := Grouped(segs, kinds);
      && InBounds(segs, order)
      && (forall a | 0 <= a < |order| :: segs[order[a]].kind in kinds)
      && (forall a, b | 0 <= a < b < |order| ::
            var ra, rb := Rank(kinds, segs[order[a]].kind), Rank(kinds, segs[order[b]].kind);
            ra < rb || (ra == rb && order[a] < order[b]))
      && (forall x | 0 <= x < |segs| && segs[x].kind in kinds :: x in order)
  {
    if kinds != [] {
      var n := |kinds| - 1;
      var before, last := Grouped(segs, kinds[..n]), OfType(segs, kinds[n], |segs|);
      GroupedIs(segs, kinds[..n]);
      OfTypeIs(segs, kinds[n], |segs|);
      RankOf(kinds, n);
      assert kinds == kinds[..n] + [kinds[n]];
      var order := before + last;
      forall a, b | 0 <= a < b < |order|
        ensures
          var ra, rb := Rank(kinds, segs[order[a]].kind), Rank(kinds, segs[order[b]].kind);
          ra < rb || (ra == rb && order[a] < order[b])
      {
        if a < |before| { RankOfPrefix(kinds, segs[order[a]].kind); }
        if b < |before| { RankOfPrefix(kinds, segs[order[b]].kind); }
      }
      forall x | 0 <= x < |segs| && segs[x].kind in kinds ensures x in order {
        if segs[x].kind in kinds[..n] { assert x in before; } else { assert x in last; }
      }
    }
  }

  predicate FirstsGrow(segs: seq<Segment>, kinds: seq<string>) {
    forall i, j | 0 <= i < j < |kinds| :: First(segs, kinds[i]) < First(segs, kinds[j])
  }

  lemma {:induction false} KindsAre(segs: seq<Segment>, n: nat)
    requires n <= |segs|
    ensures forall i | 0 <= i < |Kinds(segs, n)| :: First(segs, Kinds(segs, n)[i]) < n
    ensures FirstsGrow(segs, Kinds(segs, n))
    ensures forall x | 0 <= x < n :: segs[x].kind in Kinds(segs, n)
  {
    hide First;
    if n > 0 {
      KindsAre(segs, n - 1);
      var kind := segs[n - 1].kind;
      if kind !in Kinds(segs, n - 1) {
        var f := First(segs, kind);
        assert f == n - 1;
      }
    }
  }

  lemma {:induction false} UnknownAre(segs: seq<Segment>, kinds: seq<string>)
    requires FirstsGrow(segs, kinds)
    ensures FirstsGrow(segs, Unknown(kinds))
    ensures forall k :: k in Unknown(kinds) <==> k in kinds && k !in SEQUENCE
  {
    hide First;
    if kinds != [] {
      var n := |kinds| - 1;
      UnknownAre(segs, kinds[..n]);
      assert kinds == kinds[..n] + [kinds[n]];
      forall i | 0 <= i < |Unknown(kinds[..n])| ensures First(segs, Unknown(kinds[..n])[i]) < First(segs, kinds[n]) {
        var u := Unknown(kinds[..n])[i];
        assert u in kinds[..n];
        var j :| 0 <= j < n && kinds[j] == u;
      }
    }
  }

  predicate SortedAhead(segs: seq<Segment>, order: seq<nat>)
    requires InBounds(segs, order)
  {
    forall a, b | 0 <= a < b < |order| :: Ahead(segs, order[a], order[b])
  }

  lemma {:induction false} InsertHas(segs: seq<Segment>, sorted: seq<nat>, x: nat, y: nat)
    requires InBounds(segs, sorted) && x < |segs|
    ensures y in Insert(segs, sorted, x) <==> y in sorted || y == x
  {
    if sorted != [] {
      var n := |sorted| - 1;
      assert sorted == sorted[..n] + [sorted[n]];
      if segs[sorted[n]].relevance < segs[x].relevance { InsertHas(segs, sorted[..n], x, y); }
    }
  }

  lemma SortedMore(segs: seq<Segment>, r: seq<nat>, y: nat)
    requires InBounds(segs, r) && y < |segs| && SortedAhead(segs, r)
    requires forall a | 0 <= a < |r| :: Ahead(segs, r[a], y)
    ensures SortedAhead(segs, r + [y])
  {
    hide Ahead;
  }

  /** In a sorted list nothing is less relevant than the last element. */
  lemma LastIsLeast(segs: seq<Segment>, sorted: seq<nat>, a: nat)
    requires InBounds(segs, sorted) && SortedAhead(segs, sorted) && a < |sorted|
    ensures segs[sorted[a]].relevance >= segs[sorted[|sorted| - 1]].relevance
  {
    hide Earlier;
    if a < |sorted| - 1 { assert Ahead(segs, sorted[a], sorted[|sorted| - 1]); }
  }

  lemma SortedFewer(segs: seq<Segment>, sorted: seq<nat>)
    requires InBounds(segs, sorted) && SortedAhead(segs, sorted) && sorted != []
    ensures SortedAhead(segs, sorted[..|sorted| - 1])
  {
    hide Ahead;
  }

  lemma {:induction false} InsertSorts(segs: seq<Segment>, sorted: seq<nat>, x: nat)
    requires InBounds(segs, sorted) && x < |segs| && SortedAhead(segs, sorted)
    requires forall a | 0 <= a < |sorted| :: Earlier(segs, sorted[a], x)
    ensures SortedAhead(segs, Insert(segs, sorted, x))
  {
    hide Earlier, SortedAhead;
    if sorted == [] {
      NothingSorted(segs);
      SortedMore(segs, [], x);
      assert [] + [x] == [x];
    } else {
      var n := |sorted| - 1;
      if segs[sorted[n]].relevance >= segs[x].relevance {
        forall a | 0 <= a < |sorted| ensures Ahead(segs, sorted[a], x) { LastIsLeast(segs, sorted, a); }
        SortedMore(segs, sorted, x);
      } else {
        SortedFewer(segs, sorted);
        InsertSorts(segs, sorted[..n], x);
        var r := Insert(segs, sorted[..n], x);
        forall a | 0 <= a < |r| ensures Ahead(segs, r[a], sorted[n]) {
          InsertHas(segs, sorted[..n], x, r[a]);
          if r[a] != x {
            var b :| 0 <= b < n && sorted[..n][b] == r[a];
            SortedPair(segs, sorted, b, n);
          }
        }
        SortedMore(segs, r, sorted[n]);
      }
    }
  }

  lemma NothingSorted(segs: seq<Segment>)
    ensures SortedAhead(segs, [])
  {
  }

  lemma SortedPair(segs: seq<Segment>, sorted: seq<nat>, a: nat, b: nat)
    requires InBounds(segs, sorted) && SortedAhead(segs, sorted) && a < b < |sorted|
    ensures Ahead(segs, sorted[a], sorted[b])
  {
    hide Ahead;
  }

  lemma InsertIs(segs: seq<Segment>, sorted: seq<nat>, x: nat)
    requires InBounds(segs, sorted) && x < |segs| && SortedAhead(segs, sorted)
    requires forall a | 0 <= a < |sorted| :: Earlier(segs, sorted[a], x)
    ensures SortedAhead(segs, Insert(segs, sorted, x))
    ensures forall y :: y in Insert(segs, sorted, x) <==> y in sorted || y == x
  {
    hide Insert, SortedAhead, Earlier;
    InsertSorts(segs, sorted, x);
    forall y: nat ensures y in Insert(segs, sorted, x) <==> y in sorted || y == x { InsertHas(segs, sorted, x, y); }
  }

  lemma {:induction false} SortIs(segs: seq<Segment>, order: seq<nat>)
    requires InBounds(segs, order)
    requires forall a, b | 0 <= a < b < |order| :: Earlier(segs, order[a], order[b])
    ensures SortedAhead(segs, SortDesc(segs, order))
    ensures forall y :: y in SortDesc(segs, order) <==> y in order
  {
    hide Earlier, Ahead, Insert;
    if order != [] {
      var n := |order| - 1;
      assert order == order[..n] + [order[n]];
      SortIs(segs, order[..n]);
      var sorted := SortDesc(segs, order[..n]);
      forall a | 0 <= a < |sorted| ensures Earlier(segs, sorted[a], order[n]) {
        assert sorted[a] in sorted;
        var b :| 0 <= b < n && order[..n][b] == sorted[a];
      }
      InsertIs(segs, sorted, order[n]);
    }
  }

  lemma SequenceDistinct()
    ensures Distinct(SEQUENCE)
  {
    assert forall i | 0 <= i < 9 :: |SEQUENCE[i]| in {13, 9, 19, 15, 6, 12, 17};
  }

  lemma RestIs(segs: seq<Segment>)
    ensures
      var rest := Grouped(segs, Unknown(Kinds(segs, |segs|)));
      && InBounds(segs, rest)
      && (forall a, b | 0 <= a < b < |rest| :: Earlier(segs, rest[a], rest[b]))
      && (forall x | 0 <= x < |segs| :: x in rest <==> segs[x].kind !in SEQUENCE)
  {
    hide Grouped, Kinds, Unknown;
    var kinds := Unknown(Kinds(segs, |segs|));
    KindsAre(segs, |segs|);
    UnknownAre(segs, Kinds(segs, |segs|));
    GroupedIs(segs, kinds);
    var rest := Grouped(segs, kinds);
    forall x | 0 <= x < |segs| && x in rest ensures segs[x].kind !in SEQUENCE {
      var a :| 0 <= a < |rest| && rest[a] == x;
    }
  }

  /** The processing order is a permutation of the added segments, and it is the one that `Before` describes. */
  lemma OrderIsSorted(segs: seq<Segment>)
    ensures
      var order := Order(segs);
      && (forall x | 0 <= x < |segs| :: x in order)
      && (forall a, b | 0 <= a < b < |order| :: order[a] != order[b] && Before(segs, order[a], order[b]))
  {
    hide Grouped, Kinds, Unknown, SortDesc, Earlier;
    var known, rest := Grouped(segs, SEQUENCE), Grouped(segs, Unknown(Kinds(segs, |segs|)));
    SequenceDistinct();
    GroupedIs(segs, SEQUENCE);
    RestIs(segs);
    SortIs(segs, rest);
    var sorted := SortDesc(segs, rest);
    forall a | 0 <= a < |sorted| ensures segs[sorted[a]].kind !in SEQUENCE { assert sorted[a] in sorted; }
    var order := known + sorted;
    forall a, b | 0 <= a < b < |order| ensures Before(segs, order[a], order[b]) {
      if a >= |known| { assert Ahead(segs, sorted[a - |known|], sorted[b - |known|]); }
    }
    NeverBeforeItself(segs);
  }

  lemma NeverBeforeItself(segs: seq<Segment>)
    ensures forall x | 0 <= x < |segs| :: !Before(segs, x, x)
  {
  }

  // ---------------------------------------------------------------------------------------------
  // Selection under the two budgets
  // ---------------------------------------------------------------------------------------------

  function Tokens(segs: seq<Segment>, order: seq<nat>): (n: nat)
    requires InBounds(segs, order)
  {
    if order == [] then 0 else Tokens(segs, order[..|order| - 1]) + segs[order[|order| - 1]].tokens
  }

  function UntrustedTokens(segs: seq<Segment>, order: seq<nat>): (n: nat)
    requires InBounds(segs, order)
  {
    if order == [] then 0
    else
      var last := segs[order[|order| - 1]];
      UntrustedTokens(segs, order[..|order| - 1]) + if last.untrusted then last.tokens else 0
  }

  /** The first reason that keeps a segment out, given what was taken so far. */
  function Verdict(s: Segment, used: nat, untrustedUsed: nat, budget: nat): (r: Reason) {
    if s.untrusted && untrustedUsed + s.tokens > budget / 4 then OverUntrusted
    else if used + s.tokens > budget && !Critical(s) then OverBudget
    else Selected
  }

  /** The positions taken, in processing order. */
  function Greedy(segs: seq<Segment>, order: seq<nat>, budget: nat): (taken: seq<nat>)
    requires InBounds(segs, order)
    ensures InBounds(segs, taken)
  {
    if order == [] then []
    else
      var taken := Greedy(segs, order[..|order| - 1], budget);
      var x := order[|order| - 1];
      if Verdict(segs[x], Tokens(segs, taken), UntrustedTokens(segs, taken), budget) == Selected then taken + [x]
      else taken
  }

  predicate Subsequence(a: seq<nat>, b: seq<nat>) {
    if a == [] then true
    else if b == [] then false
    else if a[|a| - 1] == b[|b| - 1] then Subsequence(a[..|a| - 1], b[..|b| - 1])
    else Subsequence(a, b[..|b| - 1])
  }

  lemma {:induction false} GreedyGrows(segs: seq<Segment>, order: seq<nat>, i: nat, budget: nat)
    requires InBounds(segs, order) && i <= |order|
    ensures Greedy(segs, order[..i], budget) <= Greedy(segs, order, budget)
    ensures Tokens(segs, Greedy(segs, order[..i], budget)) <= Tokens(segs, Greedy(segs, order, budget))
    ensures
      UntrustedTokens(segs, Greedy(segs, order[..i], budget)) <= UntrustedTokens(segs, Greedy(segs, order, budget))
  {
    hide Verdict;
    if i == |order| {
      assert order[..i] == order;
    } else {
      assert order[..|order| - 1][..i] == order[..i];
      GreedyGrows(segs, order[..|order| - 1], i, budget);
    }
  }

  lemma {:induction false} GreedyIsSubsequence(segs: seq<Segment>, order: seq<nat>, budget: nat)
    requires InBounds(segs, order)
    requires forall a, b | 0 <= a < b < |order| :: order[a] != order[b]
    ensures Subsequence(Greedy(segs, order, budget), order)
    ensures forall x :: x in Greedy(segs, order, budget) ==> x in order
  {
    hide Verdict, Tokens, UntrustedTokens;
    if order != [] {
      var n := |order| - 1;
      GreedyIsSubsequence(segs, order[..n], budget);
      var taken := Greedy(segs, order[..n], budget);
      assert order == order[..n] + [order[n]];
      if taken != [] { assert taken[|taken| - 1] in order[..n]; }
    }
  }

  /** No more untrusted tokens than a quarter of the budget. */
  lemma {:induction false} UntrustedBounded(segs: seq<Segment>, order: seq<nat>, budget: nat)
    requires InBounds(segs, order)
    ensures UntrustedTokens(segs, Greedy(segs, order, budget)) <= budget / 4
  {
    if order != [] {
      UntrustedBounded(segs, order[..|order| - 1], budget);
    }
  }

  /** When critical segments come first, the total stays within the budget or within the critical tokens. */
  lemma {:induction false} TotalBounded(segs: seq<Segment>, critical: seq<nat>, rest: seq<nat>, budget: nat)
    requires InBounds(segs, critical) && InBounds(segs, rest)
    requires forall i | 0 <= i < |rest| :: !Critical(segs[rest[i]])
    ensures
      var total := Tokens(segs, Greedy(segs, critical + rest, budget));
      total <= budget || total <= Tokens(segs, critical)
  {
    hide UntrustedTokens, Critical;
    if rest == [] {
      assert critical + rest == critical;
      TotalOfFirst(segs, critical, budget);
    } else {
      var n := |rest| - 1;
      assert (critical + rest)[..|critical + rest| - 1] == critical + rest[..n];
      TotalBounded(segs, critical, rest[..n], budget);
    }
  }

  lemma {:induction false} TotalOfFirst(segs: seq<Segment>, order: seq<nat>, budget: nat)
    requires InBounds(segs, order)
    ensures Tokens(segs, Greedy(segs, order, budget)) <= Tokens(segs, order)
  {
    hide Verdict;
    if order != [] {
      TotalOfFirst(segs, order[..|order| - 1], budget);
    }
  }

  /** The reason a segment gets when its turn comes. */
  function ReasonAt(segs: seq<Segment>, order: seq<nat>, i: nat, budget: nat): (r: Reason)
    requires InBounds(segs, order) && i < |order|
  {
    var taken := Greedy(segs, order[..i], budget);
    Verdict(segs[order[i]], Tokens(segs, taken), UntrustedTokens(segs, taken), budget)
  }

  /** Taken or not is what the reason says; and what was refused in its turn would still be refused at the end. */
  lemma ReasonsStand(segs: seq<Segment>, order: seq<nat>, i: nat, budget: nat)
    requires InBounds(segs, order) && i < |order|
    requires forall a, b | 0 <= a < b < |order| :: order[a] != order[b]
    ensures
      var taken := Greedy(segs, order, budget);
      var s, r := segs[order[i]], ReasonAt(segs, order, i, budget);
      && (order[i] in taken <==> r == Selected)
      && (r == OverUntrusted ==> s.untrusted && UntrustedTokens(segs, taken) + s.tokens > budget / 4)
      && (r == OverBudget ==> !Critical(s) && Tokens(segs, taken) + s.tokens > budget)
  {
    hide Tokens, UntrustedTokens;
    GreedyGrows(segs, order, i, budget);
    TakenInTurn(segs, order, i, budget);
  }

  lemma {:induction false} TakenInTurn(segs: seq<Segment>, order: seq<nat>, i: nat, budget: nat)
    requires InBounds(segs, order) && i < |order|
    requires forall a, b | 0 <= a < b < |order| :: order[a] != order[b]
    ensures order[i] in Greedy(segs, order, budget) <==> ReasonAt(segs, order, i, budget) == Selected
  {
    hide Verdict, Tokens, UntrustedTokens;
    var n := |order| - 1;
    GreedyIsSubsequence(segs, order[..n], budget);
    var taken := Greedy(segs, order[..n], budget);
    if i == n {
      forall k | 0 <= k < |taken| ensures taken[k] != order[n] { assert taken[k] in order[..n]; }
    } else {
      assert order[..n][..i] == order[..i];
      TakenInTurn(segs, order[..n], i, budget);
    }
  }

  // ---------------------------------------------------------------------------------------------
  // Main results
  // ---------------------------------------------------------------------------------------------

  /** What is taken of the added segments. */
  function Selection(segs: seq<Segment>, budget: nat): (taken: seq<nat>)
    ensures InBounds(segs, taken)
  {
    Greedy(segs, Order(segs), budget)
  }

  const CRITICAL: seq<string> := ["system_policy", "task_goal"]

  function CriticalPart(segs: seq<Segment>): (order: seq<nat>)
    ensures InBounds(segs, order)
  {
    GroupedInBounds(segs, CRITICAL);
    Grouped(segs, CRITICAL)
  }

  lemma {:induction false} GroupedPrefix(segs: seq<Segment>, kinds: seq<string>, k: nat)
    requires k <= |kinds|
    ensures Grouped(segs, kinds[..k]) <= Grouped(segs, kinds)
    decreases |kinds|
  {
    if k == |kinds| {
      assert kinds[..k] == kinds;
    } else {
      assert kinds[..|kinds| - 1][..k] == kinds[..k];
      GroupedPrefix(segs, kinds[..|kinds| - 1], k);
    }
  }

  lemma CriticalFirst(segs: seq<Segment>)
    ensures
      var critical, order := CriticalPart(segs), Order(segs);
      && critical <= order
      && forall i | |critical| <= i < |order| :: !Critical(segs[order[i]])
  {
    hide Before, Grouped, SortDesc, Kinds, Unknown;
    var critical, order := CriticalPart(segs), Order(segs);
    GroupedPrefix(segs, SEQUENCE, 2);
    assert SEQUENCE[..2] == CRITICAL;
    OrderIsSorted(segs);
    assert Distinct(CRITICAL) by { assert |CRITICAL[0]| != |CRITICAL[1]|; }
    GroupedIs(segs, CRITICAL);
    forall i | |critical| <= i < |order| ensures !Critical(segs[order[i]]) {
      assert CRITICAL[0] in CRITICAL && CRITICAL[1] in CRITICAL;
      forall j | 0 <= j < |critical| ensures critical[j] != order[i] { assert critical[j] == order[j]; }
    }
  }

  lemma BudgetsHold(segs: seq<Segment>, budget: nat)
    ensures
      var taken := Selection(segs, budget);
      && (Tokens(segs, taken) <= budget || Tokens(segs, taken) <= Tokens(segs, CriticalPart(segs)))
      && UntrustedTokens(segs, taken) <= budget / 4
  {
    hide Order, Greedy, Tokens, UntrustedTokens, Critical, CriticalPart;
    var critical, order := CriticalPart(segs), Order(segs);
    UntrustedBounded(segs, order, budget);
    CriticalFirst(segs);
    var rest := order[|critical|..];
    assert order == critical + rest;
    TotalBounded(segs, critical, rest, budget);
  }

  /** Adding segment `x` to the taken ones breaks one of the two budgets. */
  predicate DoesNotFit(segs: seq<Segment>, taken: seq<nat>, x: nat, budget: nat)
    requires InBounds(segs, taken) && x < |segs|
  {
    || (segs[x].untrusted && UntrustedTokens(segs, taken) + segs[x].tokens > budget / 4)
    || (segs[x].kind !in {"system_policy", "task_goal"} && Tokens(segs, taken) + segs[x].tokens > budget)
  }

  lemma NothingLeftFits(segs: seq<Segment>, budget: nat, x: nat)
    requires x < |segs| && x !in Selection(segs, budget)
    ensures DoesNotFit(segs, Selection(segs, budget), x, budget)
  {
    hide Order, Greedy, Tokens, UntrustedTokens, Before;
    OrderIsSorted(segs);
    var order := Order(segs);
    assert x in order;
    var i :| 0 <= i < |order| && order[i] == x;
    ReasonsStand(segs, order, i, budget);
  }

  /**
  The output is a subsequence of the processing order; its tokens total at most the budget or, when that is more, the
  tokens of the critical segments; its untrusted tokens total at most a quarter of the budget; and it is maximal: every
  segment left out would break one of the two budgets if it were added to the final result.
  */
  lemma SelectionIsBudgetedAndMaximal(segs: seq<Segment>, budget: nat)
    ensures
      var taken := Selection(segs, budget);
      && Subsequence(taken, Order(segs))
      && (Tokens(segs, taken) <= budget || Tokens(segs, taken) <= Tokens(segs, CriticalPart(segs)))
      && UntrustedTokens(segs, taken) <= budget / 4
      && (forall x | 0 <= x < |segs| && x !in taken :: DoesNotFit(segs, taken, x, budget))
  {
    hide Order, Greedy, Tokens, UntrustedTokens, DoesNotFit, Before;
    OrderIsSorted(segs);
    GreedyIsSubsequence(segs, Order(segs), budget);
    BudgetsHold(segs, budget);
    forall x | 0 <= x < |segs| && x !in Selection(segs, budget)
      ensures DoesNotFit(segs, Selection(segs, budget), x, budget)
    {
      NothingLeftFits(segs, budget, x);
    }
  }

  /** Only outside content can be kept out of a critical layer, whatever the budget is. */
  lemma CriticalIsTaken(segs: seq<Segment>, budget: nat, x: nat)
    requires x < |segs| && segs[x].kind in {"system_policy", "task_goal"} && !segs[x].untrusted
    ensures x in Selection(segs, budget)
  {
    hide Selection, Tokens, UntrustedTokens;
    if x !in Selection(segs, budget) { NothingLeftFits(segs, budget, x); }
  }

  /** The layers in their order, outermost first; any other type comes after all of them. */
  function Layer(kind: string): (r: nat) {
    match kind
    case "system_policy" => 0
    case "task_goal" => 1
    case "conversation_window" => 2
    case "episodic_memory" => 3
    case "semantic_memory" => 4
    case "procedural_memory" => 5
    case "memory" => 6
    case "tool_schemas" => 7
    case "untrusted" => 8
    case _ => 9
  }

  /**
  Of two segments in the processing order the first is in no later layer; within a known type the one added first comes
  first; and among the unknown types the more relevant one does, with segments of one type and equal relevance in the
  order of addition.
  */
  lemma LayersInOrder(segs: seq<Segment>, a: nat, b: nat)
    requires a < b < |Order(segs)|
    ensures
      var x, y := Order(segs)[a], Order(segs)[b];
      && Layer(segs[x].kind) <= Layer(segs[y].kind)
      && (segs[x].kind == segs[y].kind && Layer(segs[x].kind) < 9 ==> x < y)
      && (Layer(segs[x].kind) == 9 ==> segs[x].relevance >= segs[y].relevance)
      && (segs[x].kind == segs[y].kind && segs[x].relevance == segs[y].relevance ==> x < y)
  {
    hide Order, Rank, First;
    OrderIsSorted(segs);
    RankIsLayer(segs[Order(segs)[a]].kind);
    RankIsLayer(segs[Order(segs)[b]].kind);
  }

  lemma RankIsLayer(kind: string)
    ensures Rank(SEQUENCE, kind) == Layer(kind) && |SEQUENCE| == 9
  {
    hide Rank, Layer;
    var r := Rank(SEQUENCE, kind);
    assert |SEQUENCE| == 9;
    if r < 9 { LayerAt(r); } else { NoLayer(kind); }
  }

  lemma LayerAt(i: nat)
    requires i < 9
    ensures Layer(SEQUENCE[i]) == i
  {
    SequenceDistinct();
  }

  lemma NoLayer(kind: string)
    requires kind !in SEQUENCE
    ensures Layer(kind) == 9
  {
    assert forall i | 0 <= i < |SEQUENCE| :: SEQUENCE[i] in SEQUENCE;
  }

  // ---------------------------------------------------------------------------------------------
  // The object
  // ---------------------------------------------------------------------------------------------

  /** Content from outside stands between both marks, unless it already holds the opening mark. */
  function Fenced(content: string, untrusted: bool): (text: string)
    ensures untrusted ==> Text.Contains(text, BEGIN)
    ensures untrusted && !Text.Contains(content, BEGIN) ==>
              BEGIN + "\n" <= text && |text| >= |END| && text[|text| - |END|..] == END && Text.Contains(text, content)
    ensures !untrusted || Text.Contains(content, BEGIN) ==> text == content
  {
    if untrusted && !Text.Contains(content, BEGIN) then
      var text := BEGIN + "\n" + content + "\n" + END;
      assert Text.OccursAt(text, BEGIN, 0) by { assert text[0..0 + |BEGIN|] == BEGIN; }
      assert Text.OccursAt(text, content, |BEGIN| + 1) by {
        assert text[|BEGIN| + 1..|BEGIN| + 1 + |content|] == content;
      }
      text
    else content
  }

  /** The marks spelled out. */
  lemma FencedWith(content: string, untrusted: bool)
    ensures Fenced(content, untrusted) ==
            if untrusted && !Text.Contains(content, "<<<UNTRUSTED_DATA_BEGIN>>>")
            then "<<<UNTRUSTED_DATA_BEGIN>>>\n" + content + "\n<<<UNTRUSTED_DATA_END>>>"
            else content
  {
    assert BEGIN + "\n" == "<<<UNTRUSTED_DATA_BEGIN>>>\n" && "\n" + END == "\n<<<UNTRUSTED_DATA_END>>>";
    assert BEGIN + "\n" + content + "\n" + END == BEGIN + "\n" + content + ("\n" + END);
  }

  lemma {:induction false} NoneOfType(segs: seq<Segment>, kind: string, n: nat)
    requires n <= |segs| && kind !in Kinds(segs, n)
    ensures OfType(segs, kind, n) == []
  {
    if n > 0 {
      NoneOfType(segs, kind, n - 1);
    }
  }

  class ContextAssembler {
    const maxTokens: nat
    var segments: seq<Segment>

    constructor (limit: int)
      ensures maxTokens == (if limit >= 3072 then limit else 3072) && segments == []
    {
      maxTokens := if limit > OUTPUT_RESERVE + 1024 then limit else OUTPUT_RESERVE + 1024;
      segments := [];
    }

    method Add(kind: string, content: string, relevance: real, untrusted: bool, scrub: string -> string,
               estimate: string -> nat)
      modifies this
      ensures |segments| == |old(segments)| + 1 && segments[..|old(segments)|] == old(segments)
      ensures
        var s := segments[|old(segments)|];
        && s.kind == kind && s.relevance == relevance && s.tokens == estimate(s.content) && s.reason == Selected
        && s.untrusted == (untrusted || kind in {"untrusted", "tool_output", "external_data"})
        && s.content == Fenced(scrub(content), s.untrusted)
    {
      var outside := untrusted || kind in {"untrusted", "tool_output", "external_data"};
      var text := Fenced(scrub(content), outside);
      segments := segments + [Segment(kind, text, estimate(text), relevance, outside, Selected)];
    }

    /** The dictionary of segments by type, with its keys in the order of insertion. */
    method Group() returns (groups: map<string, seq<nat>>, keys: seq<string>)
      ensures keys == Kinds(segments, |segments|)
      ensures forall k :: k in groups <==> k in keys
      ensures forall k | k in groups :: groups[k] == OfType(segments, k, |segments|)
    {
      groups, keys := map[], [];
      for i := 0 to |segments|
        invariant keys == Kinds(segments, i)
        invariant forall k :: k in groups <==> k in keys
        invariant forall k | k in groups :: groups[k] == OfType(segments, k, i)
      {
        var kind := segments[i].kind;
        if kind !in groups {
          NoneOfType(segments, kind, i);
          keys := keys + [kind];
          groups := groups[kind := []];
        }
        groups := groups[kind := groups[kind] + [i]];
      }
    }

    /** Takes the known types in sequence, and sorts the rest. */
    method Arrange() returns (order: seq<nat>)
      ensures order == Order(segments)
    {
      hide SortDesc, OfType, Kinds;
      var groups, keys := Group();
      order := [];
      for t := 0 to |SEQUENCE|
        invariant order == Grouped(segments, SEQUENCE[..t])
        invariant forall k :: k in groups <==> k in keys && k !in SEQUENCE[..t]
        invariant forall k | k in groups :: groups[k] == OfType(segments, k, |segments|)
      {
        var kind := SEQUENCE[t];
        assert SEQUENCE[..t + 1] == SEQUENCE[..t] + [kind];
        if kind in groups {
          order := order + groups[kind];
          groups := groups - {kind};
        } else {
          NotGrouped(kind, t, keys);
        }
      }
      assert SEQUENCE[..|SEQUENCE|] == SEQUENCE;
      var rest := [];
      for i := 0 to |keys|
        invariant rest == Grouped(segments, Unknown(keys[..i]))
      {
        assert keys[..i + 1][..i] == keys[..i];
        if keys[i] in groups {
          rest := rest + groups[keys[i]];
        }
      }
      assert keys[..|keys|] == keys;
      GroupedInBounds(segments, Unknown(keys));
      order := order + SortDesc(segments, rest);
    }

    /** A known type that is no longer in the dictionary was never in it: no type occurs twice in the sequence. */
    lemma NotGrouped(kind: string, t: nat, keys: seq<string>)
      requires t < |SEQUENCE| && kind == SEQUENCE[t] && keys == Kinds(segments, |segments|)
      requires kind !in keys || kind in SEQUENCE[..t]
      ensures OfType(segments, kind, |segments|) == []
    {
      SequenceDistinct();
      NoneOfType(segments, kind, |segments|);
    }

    /** The two budget checks on one segment; a refused one is marked with the reason. */
    method Consider(x: nat, used: nat, untrustedUsed: nat, budget: nat) returns (fits: bool)
      requires x < |segments|
      modifies this
      ensures
        var r := Verdict(old(segments)[x], used, untrustedUsed, budget);
        fits == (r == Selected) && segments == old(segments)[x := MarkedAs(old(segments)[x], r)]
    {
      var seg := segments[x];
      if seg.untrusted && untrustedUsed + seg.tokens > budget / 4 {
        segments := segments[x := seg.(reason := OverUntrusted)];
        return false;
      }
      if used + seg.tokens > budget && !Critical(seg) {
        segments := segments[x := seg.(reason := OverBudget)];
        return false;
      }
      return true;
    }

    /**
    Takes segments in order while the budgets last.  A segment left out gets the reason of its refusal; the others keep
    theirs.
    */
    method Assemble() returns (ordered: seq<nat>)
      requires maxTokens >= OUTPUT_RESERVE
      modifies this
      ensures
        var was, budget := old(segments), maxTokens - 2048;
        && ordered == Selection(was, budget)
        && Marked(was, segments, Order(was), |Order(was)|, budget)
    {
      hide Order, Before, Verdict, MarkedAs, Marked;
      ordered := [];
      var budget := maxTokens - OUTPUT_RESERVE;
      var used, untrustedUsed := 0, 0;
      var order := Arrange();
      ghost var was := segments;
      OrderIsSorted(was);
      MarkedNone(was, order, budget);
      for i := 0 to |order|
        invariant Marked(was, segments, order, i, budget) && ordered == Greedy(was, order[..i], budget)
        invariant used == Tokens(was, ordered) && untrustedUsed == UntrustedTokens(was, ordered)
      {
        assert order[..i + 1][..i] == order[..i];
        ghost var last := segments;
        MarkedAt(was, last, order, i, budget);
        var fits := Consider(order[i], used, untrustedUsed, budget);
        MarkedNext(was, last, segments, order, i, budget);
        if fits {
          var seg := segments[order[i]];
          ordered := ordered + [order[i]];
          used := used + seg.tokens;
          if seg.untrusted {
            untrustedUsed := untrustedUsed + seg.tokens;
          }
        }
      }
      assert order[..|order|] == order;
    }
  }

  /** The first `n` segments of the order carry the reason of their turn, the others are as they were. */
  predicate Marked(was: seq<Segment>, now: seq<Segment>, order: seq<nat>, n: nat, budget: nat)
    requires InBounds(was, order)
  {
    && |now| == |was|
    && forall i | 0 <= i < |order| ::
         now[order[i]] == if i < n then MarkedAs(was[order[i]], ReasonAt(was, order, i, budget)) else was[order[i]]
  }

  /** When all segments were considered, those left out carry their reason and nothing else has changed. */
  lemma MarkedAll(was: seq<Segment>, now: seq<Segment>, order: seq<nat>, budget: nat)
    requires InBounds(was, order) && Marked(was, now, order, |order|, budget)
    ensures |now| == |was|
    ensures forall i | 0 <= i < |order| ::
              var x, r := order[i], ReasonAt(was, order, i, budget);
              now[x] == was[x].(reason := if r == Selected then was[x].reason else r)
  {
    hide ReasonAt;
  }

  lemma MarkedNone(was: seq<Segment>, order: seq<nat>, budget: nat)
    requires InBounds(was, order)
    ensures Marked(was, was, order, 0, budget)
  {
  }

  lemma MarkedAt(was: seq<Segment>, now: seq<Segment>, order: seq<nat>, i: nat, budget: nat)
    requires InBounds(was, order) && Marked(was, now, order, i, budget) && i < |order|
    ensures |now| == |was| && now[order[i]] == was[order[i]]
  {
  }

  lemma MarkedNext(was: seq<Segment>, now: seq<Segment>, next: seq<Segment>, order: seq<nat>, i: nat, budget: nat)
    requires InBounds(was, order) && Marked(was, now, order, i, budget) && i < |order|
    requires forall a, b | 0 <= a < b < |order| :: order[a] != order[b]
    requires next == now[order[i] := MarkedAs(now[order[i]], ReasonAt(was, order, i, budget))]
    ensures Marked(was, next, order, i + 1, budget)
  {
    hide MarkedAs, ReasonAt;
  }

  function MarkedAs(s: Segment, r: Reason): (s': Segment)
    ensures s'.tokens == s.tokens && s'.untrusted == s.untrusted
  {
    if r == Selected then s else s.(reason := r)
  }
}
