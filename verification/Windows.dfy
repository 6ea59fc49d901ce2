/**
Sliding windows over timestamps: the coordinator's circuit breaker and the in-memory rate limiter.  Both prune their
list on every call; what they decide is nevertheless a statement about the full history of calls.
*/
module Windows {

  /** The times of the list that lie less than `width` before `now`. */
  function Keep(times: seq<int>, now: int, width: int): (kept: seq<int>) {
    if times == [] then []
    else
      var last := times[|times| - 1];
      Keep(times[..|times| - 1], now, width) + if now - last < width then [last] else []
  }

  function Lookup(m: map<string, seq<int>>, key: string): (times: seq<int>) {
    if key in m then m[key] else []
  }

  lemma {:induction false} KeepAppend(times: seq<int>, t: int, now: int, width: int)
    ensures Keep(times + [t], now, width) == Keep(times, now, width) + if now - t < width then [t] else []
  {
    assert (times + [t])[..|times|] == times;
  }

  lemma {:induction false} KeepJoin(a: seq<int>, b: seq<int>, now: int, width: int)
    ensures Keep(a + b, now, width) == Keep(a, now, width) + Keep(b, now, width)
  {
    if b == [] {
      assert a + b == a;
    } else {
      assert (a + b)[..|a + b| - 1] == a + b[..|b| - 1];
      KeepJoin(a, b[..|b| - 1], now, width);
    }
  }

  /** Pruning earlier, at an earlier time, loses nothing that a later prune would keep. */
  lemma {:induction false} PruneEarly(times: seq<int>, earlier: int, now: int, width: int)
    requires earlier <= now
    ensures Keep(Keep(times, earlier, width), now, width) == Keep(times, now, width)
  {
    if times != [] {
      var n := |times| - 1;
      PruneEarly(times[..n], earlier, now, width);
      KeepJoin(Keep(times[..n], earlier, width), if earlier - times[n] < width then [times[n]] else [], now, width);
      var none: seq<int> := [];
      assert [times[n]][..0] == none;
    }
  }

  /** The pruning comprehension, as a loop. */
  method Prune(times: seq<int>, now: int, width: int) returns (kept: seq<int>)
    ensures kept == Keep(times, now, width)
  {
    kept := [];
    for i := 0 to |times|
      invariant kept == Keep(times[..i], now, width)
    {
      assert times[..i + 1][..i] == times[..i];
      if now - times[i] < width {
        kept := kept + [times[i]];
      }
    }
    assert times[..|times|] == times;
  }

  // ---------------------------------------------------------------------------------------------
  // Circuit breaker
  // ---------------------------------------------------------------------------------------------

  const THRESHOLD := 5
  const COOLDOWN := 30_000

  datatype BreakerCall = Fail(key: string, at: int) | Reset(key: string)

  /** What the breaker stores after a history of calls. */
  function Stored(calls: seq<BreakerCall>): (m: map<string, seq<int>>) {
    if calls == [] then map[]
    else
      var m := Stored(calls[..|calls| - 1]);
      match calls[|calls| - 1]
      case Fail(key, at) => m[key := Keep(Lookup(m, key), at, COOLDOWN) + [at]]
      case Reset(key) => m - {key}
  }

  /** All failures of a key since its last reset. */
  function FailuresSince(calls: seq<BreakerCall>, key: string): (times: seq<int>) {
    if calls == [] then []
    else
      var before := FailuresSince(calls[..|calls| - 1], key);
      match calls[|calls| - 1]
      case Fail(k, at) => if k == key then before + [at] else before
      case Reset(k) => if k == key then [] else before
  }

  /** The failures happen in the order of the clock, and none after `now`. */
  predicate Monotone(calls: seq<BreakerCall>, now: int) {
    && (forall i | 0 <= i < |calls| && calls[i].Fail? :: calls[i].at <= now)
    && (forall i, j | 0 <= i < j < |calls| && calls[i].Fail? && calls[j].Fail? :: calls[i].at <= calls[j].at)
  }

  lemma MonotoneBefore(calls: seq<BreakerCall>, now: int)
    requires Monotone(calls, now) && calls != []
    ensures Monotone(calls[..|calls| - 1], now)
    ensures calls[|calls| - 1].Fail? ==> Monotone(calls[..|calls| - 1], calls[|calls| - 1].at)
  {
  }

  /** At any later time the pruned list and the full history since the reset have the same window. */
  lemma {:induction false} StoredIsHistory(calls: seq<BreakerCall>, key: string, now: int)
    requires Monotone(calls, now)
    ensures Keep(Lookup(Stored(calls), key), now, COOLDOWN) == Keep(FailuresSince(calls, key), now, COOLDOWN)
  {
    if calls != [] {
      var before, last := calls[..|calls| - 1], calls[|calls| - 1];
      MonotoneBefore(calls, now);
      StoredIsHistory(before, key, now);
      if last.Fail? && last.key == key {
        var list := Lookup(Stored(before), key);
        PruneEarly(list, last.at, now, COOLDOWN);
        KeepAppend(Keep(list, last.at, COOLDOWN), last.at, now, COOLDOWN);
        KeepAppend(FailuresSince(before, key), last.at, now, COOLDOWN);
      }
    }
  }

  /**
  The breaker opens exactly when the failures since the last reset that lie within the cooldown reach the threshold.
  */
  predicate Opens(calls: seq<BreakerCall>, key: string, now: int) {
    |Keep(FailuresSince(calls, key), now, COOLDOWN)| + 1 >= THRESHOLD
  }

  class CircuitBreaker {
    var failures: map<string, seq<int>>
    ghost var calls: seq<BreakerCall>

    ghost predicate Valid()
      reads this
    {
      failures == Stored(calls)
    }

    constructor ()
      ensures Valid() && calls == []
    {
      failures := map[];
      calls := [];
    }

    method RecordFailure(key: string, now: int) returns (open: bool)
      requires Valid() && Monotone(calls, now)
      modifies this
      ensures calls == old(calls) + [Fail(key, now)] && Valid()
      ensures open == Opens(old(calls), key, now)
    {
      var kept := Prune(Lookup(failures, key), now, COOLDOWN);
      failures := failures[key := kept + [now]];
      StoredIsHistory(calls, key, now);
      calls := calls + [Fail(key, now)];
      assert calls[..|calls| - 1] == old(calls);
      open := |kept + [now]| >= THRESHOLD;
    }

    method ResetKey(key: string)
      requires Valid()
      modifies this
      ensures calls == old(calls) + [Reset(key)] && Valid()
    {
      failures := failures - {key};
      calls := calls + [Reset(key)];
      assert calls[..|calls| - 1] == old(calls);
    }
  }

  // ---------------------------------------------------------------------------------------------
  // Rate limiter
  // ---------------------------------------------------------------------------------------------

  datatype Request = Request(key: string, limit: int, window: int, at: int)

  predicate Admits(times: seq<int>, r: Request) {
    |Keep(times, r.at, r.window)| < r.limit
  }

  function Remembered(reqs: seq<Request>): (m: map<string, seq<int>>) {
    if reqs == [] then map[]
    else
      var m := Remembered(reqs[..|reqs| - 1]);
      var r := reqs[|reqs| - 1];
      var kept := Keep(Lookup(m, r.key), r.at, r.window);
      m[r.key := if |kept| < r.limit then kept + [r.at] else kept]
  }

  /** The times at which requests of a key were admitted. */
  function Admitted(reqs: seq<Request>, key: string): (times: seq<int>) {
    if reqs == [] then []
    else
      var before := reqs[..|reqs| - 1];
      var r := reqs[|reqs| - 1];
      var times := Admitted(before, key);
      if r.key == key && Admits(Lookup(Remembered(before), key), r) then times + [r.at] else times
  }

  /** The clock does not run backwards, and a key is always checked against the same limit and window. */
  predicate Steady(reqs: seq<Request>, key: string, limit: int, window: int, now: int) {
    && (forall i | 0 <= i < |reqs| && reqs[i].key == key ::
          reqs[i].limit == limit && reqs[i].window == window && reqs[i].at <= now)
    && (forall i, j | 0 <= i < j < |reqs| && reqs[i].key == key && reqs[j].key == key :: reqs[i].at <= reqs[j].at)
  }

  /** How many of the times lie in the half-open interval from `lo` to `hi`. */
  function CountIn(times: seq<int>, lo: int, hi: int): (n: nat) {
    if times == [] then 0
    else CountIn(times[..|times| - 1], lo, hi) + if lo <= times[|times| - 1] < hi then 1 else 0
  }

  lemma CountAppend(times: seq<int>, t: int, lo: int, hi: int)
    ensures CountIn(times + [t], lo, hi) == CountIn(times, lo, hi) + if lo <= t < hi then 1 else 0
  {
    assert (times + [t])[..|times|] == times;
  }

  /** The half-open interval from `lo` that is as long as the window holds at most the limit of the times. */
  predicate WithinLimit(times: seq<int>, limit: int, window: int, lo: int) {
    CountIn(times, lo, lo + window) <= if limit > 0 then limit else 0
  }

  lemma OneMore(reqs: seq<Request>, r: Request)
    ensures
      var kept := Keep(Lookup(Remembered(reqs), r.key), r.at, r.window);
      var ok := |kept| < r.limit;
      && Remembered(reqs + [r]) == Remembered(reqs)[r.key := if ok then kept + [r.at] else kept]
      && Admitted(reqs + [r], r.key) == Admitted(reqs, r.key) + if ok then [r.at] else []
  {
    assert (reqs + [r])[..|reqs|] == reqs;
  }

  // ---------------------------------------------------------------------------------------------
  // The limiter under a clock that may be set back
  // ---------------------------------------------------------------------------------------------

  /** No check of the key after request `i` read a clock at least a window later. */
  predicate Survives(reqs: seq<Request>, key: string, window: int, i: nat)
    requires i < |reqs|
  {
    forall j | i < j < |reqs| && reqs[j].key == key :: reqs[j].at - reqs[i].at < window
  }

  predicate AdmittedAt(reqs: seq<Request>, key: string, i: nat)
    requires i < |reqs|
  {
    reqs[i].key == key && Admits(Lookup(Remembered(reqs[..i]), key), reqs[i])
  }

  /** The admissions among the first `n` requests that no later check forgot. */
  function Surviving(reqs: seq<Request>, key: string, window: int, n: nat): (times: seq<int>)
    requires n <= |reqs|
  {
    if n == 0 then []
    else
      var before := Surviving(reqs, key, window, n - 1);
      if AdmittedAt(reqs, key, n - 1) && Survives(reqs, key, window, n - 1) then before + [reqs[n - 1].at] else before
  }

  /** The key is always checked against the same window. */
  predicate SameWindow(reqs: seq<Request>, key: string, window: int) {
    forall i | 0 <= i < |reqs| && reqs[i].key == key :: reqs[i].window == window
  }

  lemma {:induction false} SurvivingBefore(reqs: seq<Request>, r: Request, window: int, n: nat)
    requires n <= |reqs|
    ensures Surviving(reqs + [r], r.key, window, n) == Keep(Surviving(reqs, r.key, window, n), r.at, window)
  {
    var all := reqs + [r];
    if n > 0 {
      SurvivingBefore(reqs, r, window, n - 1);
      assert all[..n - 1] == reqs[..n - 1] && all[n - 1] == reqs[n - 1];
      SurvivesMore(reqs, r, window, n - 1);
      KeepAppend(Surviving(reqs, r.key, window, n - 1), reqs[n - 1].at, r.at, window);
    }
  }

  lemma SurvivesMore(reqs: seq<Request>, r: Request, window: int, i: nat)
    requires i < |reqs|
    ensures Survives(reqs + [r], r.key, window, i) <==> Survives(reqs, r.key, window, i) && r.at - reqs[i].at < window
  {
    var all := reqs + [r];
    assert all[|reqs|] == r && forall j | 0 <= j < |reqs| :: all[j] == reqs[j];
  }

  lemma {:induction false} SurvivingSame(reqs: seq<Request>, r: Request, key: string, window: int, n: nat)
    requires n <= |reqs| && r.key != key
    ensures Surviving(reqs + [r], key, window, n) == Surviving(reqs, key, window, n)
  {
    var all := reqs + [r];
    if n > 0 {
      SurvivingSame(reqs, r, key, window, n - 1);
      assert all[..n - 1] == reqs[..n - 1] && all[n - 1] == reqs[n - 1];
      assert Survives(all, key, window, n - 1) <==> Survives(reqs, key, window, n - 1) by {
        assert forall j | 0 <= j < |reqs| :: all[j] == reqs[j];
        assert all[|reqs|] == r;
      }
    }
  }

  /** Whatever the clock does, the stored list holds exactly the admissions that no later check forgot. */
  lemma {:induction false} RememberedSurvives(reqs: seq<Request>, key: string, window: int)
    requires SameWindow(reqs, key, window)
    ensures Lookup(Remembered(reqs), key) == Surviving(reqs, key, window, |reqs|)
  {
    if reqs != [] {
      var n := |reqs| - 1;
      var before, r := reqs[..n], reqs[n];
      RememberedSurvives(before, key, window);
      assert before + [r] == reqs;
      if r.key == key {
        SurvivingBefore(before, r, window, n);
        OneMore(before, r);
      } else {
        SurvivingSame(before, r, key, window, n);
      }
    }
  }

  /** The times with one more, or without it. */
  function Appended(times: seq<int>, t: int, taken: bool): (all: seq<int>) {
    if taken then times + [t] else times
  }

  lemma AdmittedStep(reqs: seq<Request>, key: string, n: nat)
    requires 0 < n <= |reqs|
    ensures Admitted(reqs[..n], key) ==
            Appended(Admitted(reqs[..n - 1], key), reqs[n - 1].at, AdmittedAt(reqs, key, n - 1))
  {
    assert reqs[..n][..n - 1] == reqs[..n - 1];
  }

  lemma SurvivingStep(reqs: seq<Request>, key: string, window: int, n: nat)
    requires 0 < n <= |reqs|
    ensures Surviving(reqs, key, window, n) ==
            Appended(Surviving(reqs, key, window, n - 1), reqs[n - 1].at,
                     AdmittedAt(reqs, key, n - 1) && Survives(reqs, key, window, n - 1))
  {
  }

  lemma AdmittedMeans(reqs: seq<Request>, key: string, i: nat)
    requires i < |reqs| && AdmittedAt(reqs, key, i)
    ensures reqs[i].key == key && reqs[i].limit > 0
  {
  }

  lemma KeepAppended(times: seq<int>, t: int, taken: bool, now: int, width: int)
    ensures Keep(Appended(times, t, taken), now, width) ==
            Appended(Keep(times, now, width), t, taken && now - t < width)
  {
    KeepAppend(times, t, now, width);
  }

  lemma CountAppended(times: seq<int>, t: int, taken: bool, lo: int, hi: int)
    ensures CountIn(Appended(times, t, taken), lo, hi) ==
            CountIn(times, lo, hi) + if taken && lo <= t < hi then 1 else 0
  {
    CountAppend(times, t, lo, hi);
  }

  /** What one more request adds to the remembered and to all admissions of a window. */
  lemma StepWindows(reqs: seq<Request>, key: string, window: int, n: nat, now: int)
    requires 0 < n <= |reqs|
    ensures
      var t, taken := reqs[n - 1].at, AdmittedAt(reqs, key, n - 1) && now - reqs[n - 1].at < window;
      && Keep(Surviving(reqs, key, window, n), now, window) ==
         Appended(Keep(Surviving(reqs, key, window, n - 1), now, window), t,
                  taken && Survives(reqs, key, window, n - 1))
      && Keep(Admitted(reqs[..n], key), now, window) ==
         Appended(Keep(Admitted(reqs[..n - 1], key), now, window), t, taken)
  {
    hide Survives, AdmittedAt, Keep, Admitted, Surviving, Appended;
    AdmittedStep(reqs, key, n);
    SurvivingStep(reqs, key, window, n);
    var t, taken := reqs[n - 1].at, AdmittedAt(reqs, key, n - 1);
    KeepAppended(Surviving(reqs, key, window, n - 1), t, taken && Survives(reqs, key, window, n - 1), now, window);
    KeepAppended(Admitted(reqs[..n - 1], key), t, taken, now, window);
  }

  lemma {:induction false} SurvivingIsAdmitted(reqs: seq<Request>, key: string, window: int, n: nat, now: int)
    requires n <= |reqs|
    ensures |Keep(Surviving(reqs, key, window, n), now, window)| <= |Keep(Admitted(reqs[..n], key), now, window)|
  {
    if n > 0 {
      hide Survives, AdmittedAt, Keep, Admitted, Surviving;
      SurvivingIsAdmitted(reqs, key, window, n - 1, now);
      StepWindows(reqs, key, window, n, now);
    }
  }

  /** A refusal is justified under any clock: so many admissions do lie within the window. */
  lemma RefusalsAreJustified(reqs: seq<Request>, r: Request)
    requires SameWindow(reqs, r.key, r.window) && !Admits(Lookup(Remembered(reqs), r.key), r)
    ensures |Keep(Admitted(reqs, r.key), r.at, r.window)| >= r.limit
  {
    RememberedSurvives(reqs, r.key, r.window);
    SurvivingIsAdmitted(reqs, r.key, r.window, |reqs|, r.at);
    assert reqs[..|reqs|] == reqs;
  }

  /** Some admission of the key within the window before `now` was forgotten by a check that read a later clock. */
  predicate Forgotten(reqs: seq<Request>, key: string, window: int, now: int) {
    exists i :: 0 <= i < |reqs| && ForgottenAt(reqs, key, window, now, i)
  }

  predicate ForgottenAt(reqs: seq<Request>, key: string, window: int, now: int, i: nat)
    requires i < |reqs|
  {
    AdmittedAt(reqs, key, i) && now - reqs[i].at < window && !Survives(reqs, key, window, i)
  }

  lemma AppendedAgree(seen: seq<int>, all: seq<int>, t: int, taken: bool, survives: bool)
    requires |seen| <= |all| && (seen == all <==> |seen| == |all|)
    ensures
      var seen', all' := Appended(seen, t, taken && survives), Appended(all, t, taken);
      && (seen' == all' <==> seen == all && (taken ==> survives))
      && (seen' == all' <==> |seen'| == |all'|)
  {
    if taken && survives {
      assert (seen + [t])[..|seen|] == seen && (all + [t])[..|all|] == all;
    }
  }

  lemma {:induction false} WindowsAgree(reqs: seq<Request>, key: string, window: int, n: nat, now: int)
    requires n <= |reqs|
    ensures
      var seen, all := Keep(Surviving(reqs, key, window, n), now, window), Keep(Admitted(reqs[..n], key), now, window);
      && (seen == all <==> forall i | 0 <= i < n :: !ForgottenAt(reqs, key, window, now, i))
      && (seen == all <==> |seen| == |all|)
  {
    if n > 0 {
      hide Survives, AdmittedAt, Keep, Admitted, Surviving, Appended;
      WindowsAgree(reqs, key, window, n - 1, now);
      SurvivingIsAdmitted(reqs, key, window, n - 1, now);
      StepWindows(reqs, key, window, n, now);
      AppendedAgree(
        Keep(Surviving(reqs, key, window, n - 1), now, window), Keep(Admitted(reqs[..n - 1], key), now, window),
        reqs[n - 1].at, AdmittedAt(reqs, key, n - 1) && now - reqs[n - 1].at < window,
        Survives(reqs, key, window, n - 1));
      assert (forall i | 0 <= i < n :: !ForgottenAt(reqs, key, window, now, i)) <==>
             (forall i | 0 <= i < n - 1 :: !ForgottenAt(reqs, key, window, now, i)) &&
             !ForgottenAt(reqs, key, window, now, n - 1);
    }
  }

  /**
  The exact condition under which one reading sees the full history: no check of the key in between read a clock at
  least a window past an admission that lies within the window now.  Then the remembered and all admissions of the
  window are the same, and otherwise not even equally many.
  */
  lemma SeesFullHistory(reqs: seq<Request>, key: string, window: int, now: int)
    requires SameWindow(reqs, key, window)
    ensures
      var seen, all := Keep(Lookup(Remembered(reqs), key), now, window), Keep(Admitted(reqs, key), now, window);
      && (seen == all <==> !Forgotten(reqs, key, window, now))
      && (|seen| == |all| <==> !Forgotten(reqs, key, window, now))
  {
    hide Survives, ForgottenAt;
    RememberedSurvives(reqs, key, window);
    WindowsAgree(reqs, key, window, |reqs|, now);
    assert reqs[..|reqs|] == reqs;
  }

  /** A clock that does not run back forgets nothing that matters, so the limiter decides by all admissions. */
  lemma SteadyForgetsNothing(reqs: seq<Request>, key: string, limit: int, window: int, now: int)
    requires Steady(reqs, key, limit, window, now)
    ensures !Forgotten(reqs, key, window, now)
    ensures Keep(Lookup(Remembered(reqs), key), now, window) == Keep(Admitted(reqs, key), now, window)
  {
    SeesFullHistory(reqs, key, window, now);
  }

  // ---------------------------------------------------------------------------------------------
  // When an interval holds more than the limit
  // ---------------------------------------------------------------------------------------------

  /** The key is always checked against the same limit and window. */
  predicate SameLimit(reqs: seq<Request>, key: string, limit: int, window: int) {
    forall i | 0 <= i < |reqs| && reqs[i].key == key :: reqs[i].limit == limit && reqs[i].window == window
  }

  /** How many of the first `n` requests were admitted in the interval from `lo` and forgotten by a later check. */
  function ForgottenIn(reqs: seq<Request>, key: string, window: int, lo: int, n: nat): (count: nat)
    requires n <= |reqs|
  {
    if n == 0 then 0
    else
      ForgottenIn(reqs, key, window, lo, n - 1) +
      if AdmittedAt(reqs, key, n - 1) && lo <= reqs[n - 1].at < lo + window && !Survives(reqs, key, window, n - 1)
      then 1 else 0
  }

  /** How many of the times count at `now` although they lie outside the interval from `lo`. */
  function Outside(times: seq<int>, lo: int, now: int, window: int): (count: nat) {
    if times == [] then 0
    else
      var last := times[|times| - 1];
      Outside(times[..|times| - 1], lo, now, window) +
      if now - last < window && !(lo <= last < lo + window) then 1 else 0
  }

  /**
  Request `i` finds room for itself in the interval from `lo`: the admissions forgotten inside the interval are fewer
  than the free places the limiter sees and the remembered admissions that it counts outside the interval.
  */
  predicate Room(reqs: seq<Request>, key: string, limit: int, window: int, lo: int, i: nat)
    requires i < |reqs|
  {
    var before, now := reqs[..i], reqs[i].at;
    var list := Lookup(Remembered(before), key);
    ForgottenIn(before, key, window, lo, i) < (limit - |Keep(list, now, window)|) + Outside(list, lo, now, window)
  }

  predicate RoomAlways(reqs: seq<Request>, key: string, limit: int, window: int, lo: int) {
    forall i | 0 <= i < |reqs| && AdmittedAt(reqs, key, i) && lo <= reqs[i].at < lo + window ::
      Room(reqs, key, limit, window, lo, i)
  }

  lemma ForgottenStep(reqs: seq<Request>, key: string, window: int, lo: int, n: nat)
    requires 0 < n <= |reqs|
    ensures
      var here := lo <= reqs[n - 1].at < lo + window;
      ForgottenIn(reqs, key, window, lo, n) == ForgottenIn(reqs, key, window, lo, n - 1) +
      if AdmittedAt(reqs, key, n - 1) && here && !Survives(reqs, key, window, n - 1) then 1 else 0
  {
  }

  lemma NothingSplits(reqs: seq<Request>, key: string, window: int, lo: int)
    ensures CountIn(Admitted(reqs[..0], key), lo, lo + window) == 0
    ensures CountIn(Surviving(reqs, key, window, 0), lo, lo + window) + ForgottenIn(reqs, key, window, lo, 0) == 0
  {
    assert reqs[..0] == [];
  }

  lemma {:induction false} AdmittedSplits(reqs: seq<Request>, key: string, window: int, lo: int, n: nat)
    requires n <= |reqs|
    ensures CountIn(Admitted(reqs[..n], key), lo, lo + window) ==
            CountIn(Surviving(reqs, key, window, n), lo, lo + window) + ForgottenIn(reqs, key, window, lo, n)
  {
    hide Survives, AdmittedAt, CountIn, Admitted, Surviving, Appended, ForgottenIn;
    if n == 0 {
      NothingSplits(reqs, key, window, lo);
    } else {
      AdmittedSplits(reqs, key, window, lo, n - 1);
      AdmittedStep(reqs, key, n);
      SurvivingStep(reqs, key, window, n);
      ForgottenStep(reqs, key, window, lo, n);
      var t, taken := reqs[n - 1].at, AdmittedAt(reqs, key, n - 1);
      CountAppended(
        Surviving(reqs, key, window, n - 1), t, taken && Survives(reqs, key, window, n - 1), lo, lo + window);
      CountAppended(Admitted(reqs[..n - 1], key), t, taken, lo, lo + window);
    }
  }

  lemma {:induction false} KeepSplits(times: seq<int>, lo: int, now: int, window: int)
    requires lo <= now < lo + window
    ensures |Keep(times, now, window)| == CountIn(times, lo, lo + window) + Outside(times, lo, now, window)
  {
    if times != [] {
      KeepSplits(times[..|times| - 1], lo, now, window);
    }
  }

  /** The next request finds room exactly when the interval holds fewer than the limit. */
  lemma RoomIsPlace(before: seq<Request>, r: Request, limit: int, lo: int)
    requires SameWindow(before, r.key, r.window) && lo <= r.at < lo + r.window
    ensures Room(before + [r], r.key, limit, r.window, lo, |before|) <==>
            CountIn(Admitted(before, r.key), lo, lo + r.window) < limit
  {
    hide Survives, Admits, CountIn, Keep, Outside, Remembered, Admitted;
    var reqs, n := before + [r], |before|;
    assert reqs[..n] == before && before[..n] == before;
    RememberedSurvives(before, r.key, r.window);
    AdmittedSplits(before, r.key, r.window, lo, n);
    KeepSplits(Surviving(before, r.key, r.window, n), lo, r.at, r.window);
  }

  lemma RoomBefore(before: seq<Request>, r: Request, key: string, limit: int, window: int, lo: int)
    ensures
      var reqs, n := before + [r], |before|;
      RoomAlways(reqs, key, limit, window, lo) <==>
        && RoomAlways(before, key, limit, window, lo)
        && (AdmittedAt(reqs, key, n) && lo <= r.at < lo + window ==> Room(reqs, key, limit, window, lo, n))
  {
    var reqs, n := before + [r], |before|;
    forall i | 0 <= i < n
      ensures reqs[i] == before[i] && AdmittedAt(reqs, key, i) == AdmittedAt(before, key, i)
      ensures Room(reqs, key, limit, window, lo, i) == Room(before, key, limit, window, lo, i)
    {
      assert reqs[..i] == before[..i];
    }
    hide Room, AdmittedAt;
    assert reqs[n] == r;
    if RoomAlways(reqs, key, limit, window, lo) {
      forall i | 0 <= i < n && AdmittedAt(before, key, i) && lo <= before[i].at < lo + window
        ensures Room(before, key, limit, window, lo, i)
      {
        assert Room(reqs, key, limit, window, lo, i);
      }
    }
  }

  lemma NoneWithin(key: string, limit: int, window: int, lo: int)
    ensures WithinLimit(Admitted([], key), limit, window, lo) && RoomAlways([], key, limit, window, lo)
  {
  }

  /**
  Under any clock, the half-open interval from `lo` that is as long as the window holds at most the limit of
  admissions exactly when every request admitted in it found room there.
  */
  lemma {:induction false} WithinLimitExactly(reqs: seq<Request>, key: string, limit: int, window: int, lo: int)
    requires SameLimit(reqs, key, limit, window)
    ensures WithinLimit(Admitted(reqs, key), limit, window, lo) <==> RoomAlways(reqs, key, limit, window, lo)
  {
    hide Room, RoomAlways, CountIn, Remembered, Keep, Admitted, AdmittedAt, Appended;
    if reqs == [] {
      NoneWithin(key, limit, window, lo);
    } else {
      var n := |reqs| - 1;
      var before, r := reqs[..n], reqs[n];
      assert before + [r] == reqs && reqs[..n + 1] == reqs;
      WithinLimitExactly(before, key, limit, window, lo);
      RoomBefore(before, r, key, limit, window, lo);
      AdmittedStep(reqs, key, n + 1);
      CountAppended(Admitted(before, key), r.at, AdmittedAt(reqs, key, n), lo, lo + window);
      if AdmittedAt(reqs, key, n) {
        AdmittedMeans(reqs, key, n);
        if lo <= r.at < lo + window { RoomIsPlace(before, r, limit, lo); }
      }
    }
  }

  /** No request of the key was admitted while an admission of its window was forgotten. */
  predicate AdmittedUnforgotten(reqs: seq<Request>, key: string, window: int) {
    forall i | 0 <= i < |reqs| && AdmittedAt(reqs, key, i) :: !Forgotten(reqs[..i], key, window, reqs[i].at)
  }

  lemma {:induction false} NoneForgottenIn(
      reqs: seq<Request>, key: string, window: int, lo: int, now: int, n: nat)
    requires n <= |reqs| && lo <= now < lo + window && !Forgotten(reqs, key, window, now)
    ensures ForgottenIn(reqs, key, window, lo, n) == 0
  {
    if n > 0 {
      hide Survives, Admits;
      NoneForgottenIn(reqs, key, window, lo, now, n - 1);
      assert !ForgottenAt(reqs, key, window, now, n - 1);
    }
  }

  /**
  Under any clock, no half-open interval as long as the window holds more than `limit` admissions of a key when no
  request was admitted while an admission of its window was forgotten.
  */
  lemma NeverOverLimit(reqs: seq<Request>, key: string, limit: int, window: int, lo: int)
    requires SameLimit(reqs, key, limit, window) && AdmittedUnforgotten(reqs, key, window)
    ensures WithinLimit(Admitted(reqs, key), limit, window, lo)
  {
    hide Forgotten, Lookup, Remembered, Keep, ForgottenIn;
    forall i | 0 <= i < |reqs| && AdmittedAt(reqs, key, i) && lo <= reqs[i].at < lo + window
      ensures Room(reqs, key, limit, window, lo, i)
    {
      NoneForgottenIn(reqs[..i], key, window, lo, reqs[i].at, i);
    }
    WithinLimitExactly(reqs, key, limit, window, lo);
  }

  /** A clock that does not run back keeps every interval within the limit. */
  lemma SteadyNeverOverLimit(reqs: seq<Request>, key: string, limit: int, window: int, now: int, lo: int)
    requires Steady(reqs, key, limit, window, now)
    ensures WithinLimit(Admitted(reqs, key), limit, window, lo)
  {
    forall i | 0 <= i < |reqs| && AdmittedAt(reqs, key, i)
      ensures !Forgotten(reqs[..i], key, window, reqs[i].at)
    {
      assert Steady(reqs[..i], key, limit, window, reqs[i].at);
      SteadyForgetsNothing(reqs[..i], key, limit, window, reqs[i].at);
    }
    NeverOverLimit(reqs, key, limit, window, lo);
  }

  predicate OneLimit(reqs: seq<Request>, limit: int, window: int) {
    forall i | 0 <= i < |reqs| :: reqs[i].key == "k" && reqs[i].limit == limit && reqs[i].window == window
  }

  lemma TwoAdmissions() returns (reqs: seq<Request>)
    ensures OneLimit(reqs, 2, 10)
    ensures Lookup(Remembered(reqs), "k") == [0, 0] && Admitted(reqs, "k") == [0, 0]
  {
    hide Remembered, Admitted, Keep, Lookup;
    var a := Request("k", 2, 10, 0);
    NoRequests("k");
    KeepOne(0, 0, 10);
    AddOne([], a, [], []);
    assert [] + [a] == [a];
    AddOne([a], a, [0], [0]);
    reqs := [a] + [a];
  }

  lemma FourAdmissions() returns (reqs: seq<Request>)
    ensures OneLimit(reqs, 2, 10) && Admitted(reqs, "k") == [0, 0, 100, 1]
  {
    hide Remembered, Admitted, Keep, Lookup;
    var two := TwoAdmissions();
    var b, c := Request("k", 2, 10, 100), Request("k", 2, 10, 1);
    KeepTwo(0, 0, 100, 10);
    AddOne(two, b, [0, 0], []);
    KeepOne(100, 1, 10);
    AddOne(two + [b], c, [100], [100]);
    reqs := two + [b] + [c];
  }

  /** After the clock was set back an interval can hold more than the limit of admissions. */
  lemma ClockSetBackExceedsLimit()
    ensures exists reqs: seq<Request> :: OneLimit(reqs, 2, 10) && CountIn(Admitted(reqs, "k"), 0, 10) > 2
  {
    hide Admitted;
    var reqs := FourAdmissions();
    CountFour();
    assert OneLimit(reqs, 2, 10) && CountIn(Admitted(reqs, "k"), 0, 10) > 2;
  }

  lemma AddOne(reqs: seq<Request>, r: Request, list: seq<int>, kept: seq<int>)
    requires Lookup(Remembered(reqs), r.key) == list && Keep(list, r.at, r.window) == kept && |kept| < r.limit
    ensures Lookup(Remembered(reqs + [r]), r.key) == kept + [r.at]
    ensures Admitted(reqs + [r], r.key) == Admitted(reqs, r.key) + [r.at]
  {
    hide Remembered, Admitted, Keep;
    OneMore(reqs, r);
  }

  lemma NoRequests(key: string)
    ensures Lookup(Remembered([]), key) == [] && Admitted([], key) == []
  {
  }

  lemma ThreeAdmissions() returns (two: seq<Request>, c: Request)
    ensures OneLimit(two, 2, 10) && c == Request("k", 2, 10, 1) && Admitted(two + [c], "k") == [0, 100, 1]
    ensures |two| == 2 && two[0].at == 0 && two[1].at == 100
    ensures AdmittedAt(two, "k", 0) && AdmittedAt(two + [c], "k", 2)
  {
    hide Remembered, Admitted, Keep, Lookup;
    var a, b := Request("k", 2, 10, 0), Request("k", 2, 10, 100);
    c := Request("k", 2, 10, 1);
    NoRequests("k");
    KeepOne(0, 0, 10);
    AddOne([], a, [], []);
    assert [] + [a] == [a];
    KeepOne(0, 100, 10);
    AddOne([a], b, [0], []);
    two := [a] + [b];
    KeepOne(100, 1, 10);
    AddOne(two, c, [100], [100]);
    assert two[..0] == [] && (two + [c])[..2] == two;
  }

  lemma CountThree(lo: int)
    ensures WithinLimit([0, 100, 1], 2, 10, lo)
  {
    var none: seq<int> := [];
    CountAppend(none, 0, lo, lo + 10);
    CountAppend([0], 100, lo, lo + 10);
    CountAppend([0, 100], 1, lo, lo + 10);
    assert none + [0] == [0] && [0] + [100] == [0, 100] && [0, 100] + [1] == [0, 100, 1];
  }

  /**
  Forgetting alone does no harm: here the third request is admitted while an admission of its window was forgotten,
  and still no interval holds more than the limit.
  */
  lemma ForgettingMayBeHarmless()
    ensures exists reqs: seq<Request> ::
              && OneLimit(reqs, 2, 10) && !AdmittedUnforgotten(reqs, "k", 10)
              && forall lo :: WithinLimit(Admitted(reqs, "k"), 2, 10, lo)
  {
    var two, c := ThreeAdmissions();
    var reqs := two + [c];
    hide Admitted, CountIn, AdmittedAt, Admits;
    assert !AdmittedUnforgotten(reqs, "k", 10) by {
      assert reqs[..2] == two;
      assert !Survives(two, "k", 10, 0);
      assert ForgottenAt(two, "k", 10, 1, 0);
      assert Forgotten(two, "k", 10, 1);
    }
    forall lo ensures WithinLimit(Admitted(reqs, "k"), 2, 10, lo) { CountThree(lo); }
  }

  lemma KeepOne(t: int, now: int, width: int)
    ensures Keep([], now, width) == []
    ensures Keep([t], now, width) == if now - t < width then [t] else []
  {
    assert [t][..0] == [];
  }

  lemma KeepTwo(t: int, u: int, now: int, width: int)
    ensures Keep([t, u], now, width) == (if now - t < width then [t] else []) + if now - u < width then [u] else []
  {
    assert [t, u][..1] == [t];
    KeepOne(t, now, width);
  }

  lemma CountFour()
    ensures CountIn([0, 0, 100, 1], 0, 10) == 3
  {
    assert [0, 0, 100, 1][..3] == [0, 0, 100] && [0, 0, 100][..2] == [0, 0] && [0, 0][..1] == [0];
    assert [0][..0] == [];
  }

  class RateLimiter {
    var mem: map<string, seq<int>>
    ghost var requests: seq<Request>

    ghost predicate Valid()
      reads this
    {
      mem == Remembered(requests)
    }

    constructor ()
      ensures Valid() && requests == []
    {
      mem := map[];
      requests := [];
    }

    /**
    Under any clock a request is admitted exactly when fewer than `limit` admissions of its key are remembered within
    the window before it; when none of that window was forgotten, that is the same for all admissions.  A clock that
    did not run back forgets none.
    */
    method Check(key: string, limit: int, window: int, now: int) returns (ok: bool)
      requires Valid()
      modifies this
      ensures requests == old(requests) + [Request(key, limit, window, now)] && Valid()
      ensures ok <==> Admits(Lookup(Remembered(old(requests)), key), Request(key, limit, window, now))
      ensures SameWindow(old(requests), key, window) && !Forgotten(old(requests), key, window, now) ==>
                (ok <==> |Keep(Admitted(old(requests), key), now, window)| < limit)
      ensures Steady(old(requests), key, limit, window, now) ==>
                (ok <==> |Keep(Admitted(old(requests), key), now, window)| < limit)
      ensures Admitted(requests, key) == Admitted(old(requests), key) + if ok then [now] else []
    {
      hide Keep, Remembered, Admitted, Steady, SameWindow, Forgotten;
      var kept := Prune(Lookup(mem, key), now, window);
      if SameWindow(requests, key, window) { SeesFullHistory(requests, key, window, now); }
      if Steady(requests, key, limit, window, now) { SteadyForgetsNothing(requests, key, limit, window, now); }
      OneMore(requests, Request(key, limit, window, now));
      requests := requests + [Request(key, limit, window, now)];
      if |kept| >= limit {
        mem := mem[key := kept];
        return false;
      }
      mem := mem[key := kept + [now]];
      return true;
    }
  }
}
