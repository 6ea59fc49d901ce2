/**
Retrying a finished run: concurrent handlers of one endpoint on two tables with unique constraints.  The outbox key is a
text in one unique column, and recovery writes keys of the same shape into it.
*/
module Retry {
  import opened Types
  import opened Text

  const PREFIX := "retry:"
  const ID_WIDTH := 36
  const KEY_WIDTH := 128

  /** What a retry is for: the source run and the client's key. */
  datatype Key = Key(source: string, key: string)

  /** The text of a run's identifier has a fixed length. */
  predicate IsId(id: string) {
    |id| == ID_WIDTH
  }

  /** The unique key of an outbox row, as the endpoint and as recovery write it. */
  function KeyText(key: Key): (text: string) {
    PREFIX + key.source + ":" + key.key
  }

  datatype RetryRun = RetryRun(id: string, key: Key)
  datatype OutboxRow = OutboxRow(run: string, text: string)

  /** Recovery made a successor of a run. */
  datatype Recovery = Recovery(source: string, run: string)

  datatype Response = Made(run: string) | Found(run: string) | Refused | ServerError

  /** Where a handler is: it looked and found nothing, or it holds an uncommitted row, or it has answered. */
  datatype Handler = Looked(key: Key) | Flushed(key: Key, id: string) | Done(key: Key, response: Response)

  /** `ids` are all identifiers drawn so far; none is drawn twice. */
  datatype State = State(
    runs: seq<RetryRun>, recovered: seq<Recovery>, outbox: seq<OutboxRow>, handlers: map<nat, Handler>,
    ids: set<string>)

  datatype Action =
    | Start(h: nat, key: Key, terminal: bool)
    | Flush(h: nat, id: string)
    | Commit(h: nat)
    | Crash(h: nat)
    | Recover(source: string, id: string)

  function Init(): (s: State) {
    State([], [], [], map[], {})
  }

  function Lookup(runs: seq<RetryRun>, key: Key): (id: Option<string>)
    ensures id.Some? ==> RetryRun(id.value, key) in runs
    ensures id.None? ==> forall i | 0 <= i < |runs| :: runs[i].key != key
  {
    if runs == [] then None
    else if runs[|runs| - 1].key == key then Some(runs[|runs| - 1].id)
    else Lookup(runs[..|runs| - 1], key)
  }

  predicate OutboxHas(outbox: seq<OutboxRow>, text: string) {
    exists i :: 0 <= i < |outbox| && outbox[i].text == text
  }

  /** Another handler holds an uncommitted run with this key: an insert has to wait for its end. */
  predicate Contended(s: State, h: nat, key: Key) {
    exists g :: g in s.handlers && g != h && s.handlers[g].Flushed? && s.handlers[g].key == key
  }

  predicate Fresh(s: State, id: string) {
    IsId(id) && id !in s.ids
  }

  function Reply(s: State, h: nat, key: Key, r: Response): (s': State) {
    s.(handlers := s.handlers[h := Done(key, r)])
  }

  /** The outbox insert and the commit: the column's width first, then its uniqueness. */
  function DoCommit(s: State, h: nat, key: Key, id: string): (s': State) {
    if |KeyText(key)| > KEY_WIDTH then Reply(s, h, key, ServerError)  // no handler for this error
    else if OutboxHas(s.outbox, KeyText(key)) then
      var found := Lookup(s.runs, key);
      Reply(s, h, key, if found.Some? then Found(found.value) else ServerError)
    else
      Reply(s.(runs := s.runs + [RetryRun(id, key)], outbox := s.outbox + [OutboxRow(id, KeyText(key))]),
            h, key, Made(id))
  }

  function Step(s: State, act: Action): (s': State) {
    match act
    case Start(h, key, terminal) =>
      if h in s.handlers || !IsId(key.source) then s
      else if !terminal then Reply(s, h, key, Refused)
      else
        var found := Lookup(s.runs, key);
        if found.Some? then Reply(s, h, key, Found(found.value)) else s.(handlers := s.handlers[h := Looked(key)])
    case Flush(h, id) =>
      if h !in s.handlers || !s.handlers[h].Looked? || !Fresh(s, id) then s
      else
        var key := s.handlers[h].key;
        if Contended(s, h, key) then s
        else if Lookup(s.runs, key).Some? then Reply(s, h, key, ServerError)  // raised outside the handler's try block
        else s.(handlers := s.handlers[h := Flushed(key, id)], ids := s.ids + {id})
    case Commit(h) =>
      if h !in s.handlers || !s.handlers[h].Flushed? then s else DoCommit(s, h, s.handlers[h].key, s.handlers[h].id)
    case Crash(h) => s.(handlers := s.handlers - {h})
    case Recover(source, id) =>
      // a key already in use aborts the recovering transaction
      if !IsId(source) || !Fresh(s, id) || OutboxHas(s.outbox, KeyText(Key(source, id))) then s
      else
        s.(recovered := s.recovered + [Recovery(source, id)],
           outbox := s.outbox + [OutboxRow(id, KeyText(Key(source, id)))], ids := s.ids + {id})
  }

  function Exec(s: State, acts: seq<Action>): (s': State) {
    if acts == [] then s else Step(Exec(s, acts[..|acts| - 1]), acts[|acts| - 1])
  }

  // ---------------------------------------------------------------------------------------------
  // The invariant
  // ---------------------------------------------------------------------------------------------

  predicate RunOk(s: State, r: RetryRun) {
    IsId(r.key.source) && r.id in s.ids && OutboxRow(r.id, KeyText(r.key)) in s.outbox
  }

  function RecoveryRow(r: Recovery): (row: OutboxRow) {
    OutboxRow(r.run, KeyText(Key(r.source, r.run)))
  }

  predicate RecoveryOk(s: State, r: Recovery) {
    IsId(r.source) && IsId(r.run) && r.run in s.ids && RecoveryRow(r) in s.outbox
  }

  /** An outbox row belongs to a retry or to a recovery. */
  predicate RowOk(s: State, row: OutboxRow) {
    || (exists i :: 0 <= i < |s.runs| && row == OutboxRow(s.runs[i].id, KeyText(s.runs[i].key)))
    || (exists j :: 0 <= j < |s.recovered| && row == RecoveryRow(s.recovered[j]))
  }

  predicate HandlerOk(s: State, h: nat, j: Handler) {
    IsId(j.key.source) &&
    match j
    case Looked(_) => true
    case Flushed(key, id) =>
      && (forall i | 0 <= i < |s.runs| :: s.runs[i].key != key)
      && (forall i | 0 <= i < |s.outbox| :: s.outbox[i].run != id)
      && (forall g | g in s.handlers && g != h && s.handlers[g].Flushed? ::
            s.handlers[g].key != key && s.handlers[g].id != id)
      && id in s.ids
    case Done(key, r) => (r.Made? || r.Found?) ==> RetryRun(r.run, key) in s.runs
  }

  predicate Inv(s: State) {
    && (forall i | 0 <= i < |s.runs| :: RunOk(s, s.runs[i]))
    && (forall i | 0 <= i < |s.recovered| :: RecoveryOk(s, s.recovered[i]))
    && (forall i | 0 <= i < |s.outbox| :: RowOk(s, s.outbox[i]) && s.outbox[i].run in s.ids)
    && (forall i, j | 0 <= i < j < |s.runs| :: s.runs[i].key != s.runs[j].key)
    && (forall i, j | 0 <= i < j < |s.outbox| :: s.outbox[i].run != s.outbox[j].run)
    && (forall h | h in s.handlers :: HandlerOk(s, h, s.handlers[h]))
  }

  /** Since identifiers have a fixed length, a text determines its source and key. */
  lemma TextIsUnambiguous(k1: Key, k2: Key)
    requires IsId(k1.source) && IsId(k2.source)
    ensures KeyText(k1) == KeyText(k2) <==> k1 == k2
    ensures KeyText(k1) == "retry:" + k1.source + ":" + k1.key
  {
    var t1, t2 := KeyText(k1), KeyText(k2);
    assert t1[6..42] == k1.source && t2[6..42] == k2.source;
    assert t1[43..] == k1.key && t2[43..] == k2.key;
  }

  /** Nothing changes but the place of one handler that holds no row. */
  lemma MovedKeeps(s: State, s': State, h: nat)
    requires Inv(s) && s'.runs == s.runs && s'.recovered == s.recovered && s'.outbox == s.outbox && s'.ids == s.ids
    requires forall g | g in s'.handlers && g != h :: g in s.handlers && s'.handlers[g] == s.handlers[g]
    requires h in s'.handlers ==> !s'.handlers[h].Flushed? && HandlerOk(s', h, s'.handlers[h])
    ensures Inv(s')
  {
    SameTables(s, s');
    forall g | g in s'.handlers ensures HandlerOk(s', g, s'.handlers[g]) {
      if g != h { assert HandlerOk(s, g, s.handlers[g]); }
    }
  }

  lemma SameTables(s: State, s': State)
    requires Inv(s) && s'.runs == s.runs && s'.recovered == s.recovered && s'.outbox == s.outbox && s.ids <= s'.ids
    ensures forall i | 0 <= i < |s'.runs| :: RunOk(s', s'.runs[i])
    ensures forall i | 0 <= i < |s'.recovered| :: RecoveryOk(s', s'.recovered[i])
    ensures forall i | 0 <= i < |s'.outbox| :: RowOk(s', s'.outbox[i]) && s'.outbox[i].run in s'.ids
  {
    forall i | 0 <= i < |s'.runs| ensures RunOk(s', s'.runs[i]) { assert RunOk(s, s.runs[i]); }
    forall i | 0 <= i < |s'.recovered| ensures RecoveryOk(s', s'.recovered[i]) {
      assert RecoveryOk(s, s.recovered[i]);
    }
    forall i | 0 <= i < |s'.outbox| ensures RowOk(s', s'.outbox[i]) { assert RowOk(s, s.outbox[i]); }
  }

  lemma FlushKeeps(s: State, h: nat, id: string)
    requires Inv(s) && h in s.handlers && s.handlers[h].Looked? && Fresh(s, id)
    requires !Contended(s, h, s.handlers[h].key) && Lookup(s.runs, s.handlers[h].key).None?
    ensures Inv(Step(s, Flush(h, id)))
  {
    var s' := Step(s, Flush(h, id));
    SameTables(s, s');
    hide RunOk, RecoveryOk, RowOk, KeyText;
    forall g | g in s'.handlers ensures HandlerOk(s', g, s'.handlers[g]) {
      if g in s.handlers { assert HandlerOk(s, g, s.handlers[g]); }
    }
  }

  /** A row is added together with what it belongs to. */
  lemma RowAdded(s: State, s': State, row: OutboxRow)
    requires Inv(s) && s'.outbox == s.outbox + [row] && s.ids <= s'.ids && row.run in s'.ids
    requires s.runs <= s'.runs && s.recovered <= s'.recovered && RowOk(s', row)
    ensures forall i | 0 <= i < |s.runs| :: RunOk(s', s.runs[i])
    ensures forall i | 0 <= i < |s.recovered| :: RecoveryOk(s', s.recovered[i])
    ensures forall i | 0 <= i < |s'.outbox| :: RowOk(s', s'.outbox[i]) && s'.outbox[i].run in s'.ids
  {
    hide KeyText;
    forall r | r in s.outbox ensures r in s'.outbox { }
    forall i | 0 <= i < |s.runs| ensures RunOk(s', s.runs[i]) { assert RunOk(s, s.runs[i]); }
    forall i | 0 <= i < |s.recovered| ensures RecoveryOk(s', s.recovered[i]) { assert RecoveryOk(s, s.recovered[i]); }
    forall i | 0 <= i < |s'.outbox| ensures RowOk(s', s'.outbox[i]) && s'.outbox[i].run in s'.ids {
      if i < |s.outbox| {
        assert RowOk(s, s.outbox[i]);
        if k :| 0 <= k < |s.runs| && s.outbox[i] == OutboxRow(s.runs[k].id, KeyText(s.runs[k].key)) {
          assert s'.runs[k] == s.runs[k];
        } else {
          var k :| 0 <= k < |s.recovered| && s.outbox[i] == RecoveryRow(s.recovered[k]);
          assert s'.recovered[k] == s.recovered[k];
        }
      }
    }
  }

  /**
  The unique column is taken at commit exactly when the client's key is the identifier of a recovered successor of the
  same run.
  */
  lemma OutboxKeyIsTaken(s: State, h: nat)
    requires Inv(s) && h in s.handlers && s.handlers[h].Flushed?
    ensures
      var key := s.handlers[h].key;
      OutboxHas(s.outbox, KeyText(key)) <==> Recovery(key.source, key.key) in s.recovered
  {
    hide KeyText;
    var key := s.handlers[h].key;
    assert HandlerOk(s, h, s.handlers[h]);
    if i :| 0 <= i < |s.outbox| && s.outbox[i].text == KeyText(key) {
      assert RowOk(s, s.outbox[i]);
      if k :| 0 <= k < |s.runs| && s.outbox[i] == OutboxRow(s.runs[k].id, KeyText(s.runs[k].key)) {
        assert RunOk(s, s.runs[k]);
        TextIsUnambiguous(s.runs[k].key, key);
      } else {
        var k :| 0 <= k < |s.recovered| && s.outbox[i] == RecoveryRow(s.recovered[k]);
        assert RecoveryOk(s, s.recovered[k]);
        TextIsUnambiguous(Key(s.recovered[k].source, s.recovered[k].run), key);
        assert s.recovered[k] == Recovery(key.source, key.key);
      }
    }
    if Recovery(key.source, key.key) in s.recovered {
      var k :| 0 <= k < |s.recovered| && s.recovered[k] == Recovery(key.source, key.key);
      assert RecoveryOk(s, s.recovered[k]);
    }
  }

  lemma InsertKeeps(s: State, h: nat)
    requires Inv(s) && h in s.handlers && s.handlers[h].Flushed?
    ensures
      var key, id := s.handlers[h].key, s.handlers[h].id;
      Inv(Reply(s.(runs := s.runs + [RetryRun(id, key)], outbox := s.outbox + [OutboxRow(id, KeyText(key))]),
                h, key, Made(id)))
  {
    hide KeyText;
    var key, id := s.handlers[h].key, s.handlers[h].id;
    var s' := Reply(s.(runs := s.runs + [RetryRun(id, key)], outbox := s.outbox + [OutboxRow(id, KeyText(key))]),
                    h, key, Made(id));
    assert HandlerOk(s, h, s.handlers[h]);
    assert s'.runs[|s.runs|] == RetryRun(id, key) && s'.outbox[|s.outbox|] == OutboxRow(id, KeyText(key));
    RowAdded(s, s', OutboxRow(id, KeyText(key)));
    forall r | r in s.runs ensures r in s'.runs { }
    forall g | g in s'.handlers ensures HandlerOk(s', g, s'.handlers[g]) {
      if g != h { assert HandlerOk(s, g, s.handlers[g]); }
    }
  }

  lemma CommitKeeps(s: State, h: nat)
    requires Inv(s) && h in s.handlers && s.handlers[h].Flushed?
    ensures Inv(Step(s, Commit(h)))
  {
    hide KeyText, Inv;
    var key := s.handlers[h].key;
    if |KeyText(key)| > KEY_WIDTH || OutboxHas(s.outbox, KeyText(key)) {
      FlushedIsOk(s, h);
      MovedKeeps(s, Step(s, Commit(h)), h);
    } else {
      InsertKeeps(s, h);
    }
  }

  lemma FlushedIsOk(s: State, h: nat)
    requires Inv(s) && h in s.handlers
    ensures HandlerOk(s, h, s.handlers[h])
  {
  }

  lemma RecoverKeeps(s: State, source: string, id: string)
    requires Inv(s) && IsId(source) && Fresh(s, id)
    ensures Inv(Step(s, Recover(source, id)))
  {
    hide KeyText;
    var s' := Step(s, Recover(source, id));
    var text := KeyText(Key(source, id));
    if !OutboxHas(s.outbox, text) {
      assert s'.recovered[|s.recovered|] == Recovery(source, id) && s'.outbox[|s.outbox|] == OutboxRow(id, text);
      RowAdded(s, s', OutboxRow(id, text));
      forall g | g in s'.handlers ensures HandlerOk(s', g, s'.handlers[g]) {
        assert HandlerOk(s, g, s.handlers[g]);
      }
    }
  }

  lemma StepKeeps(s: State, act: Action)
    requires Inv(s)
    ensures Inv(Step(s, act))
  {
    hide Inv, KeyText;
    var s' := Step(s, act);
    match act
    case Start(h, key, terminal) => if h !in s.handlers && IsId(key.source) { MovedKeeps(s, s', h); }
    case Flush(h, id) =>
      if h in s.handlers && s.handlers[h].Looked? && Fresh(s, id) && !Contended(s, h, s.handlers[h].key) {
        FlushedIsOk(s, h);
        if Lookup(s.runs, s.handlers[h].key).Some? { MovedKeeps(s, s', h); } else { FlushKeeps(s, h, id); }
      }
    case Commit(h) => if h in s.handlers && s.handlers[h].Flushed? { CommitKeeps(s, h); }
    case Crash(h) => MovedKeeps(s, s', h);
    case Recover(source, id) => if IsId(source) && Fresh(s, id) { RecoverKeeps(s, source, id); }
  }

  lemma {:induction false} InvAlways(acts: seq<Action>)
    ensures Inv(Exec(Init(), acts))
  {
    hide Step, Inv;
    if acts == [] {
      assert Inv(Init()) by { InitOk(); }
    } else {
      InvAlways(acts[..|acts| - 1]);
      StepKeeps(Exec(Init(), acts[..|acts| - 1]), acts[|acts| - 1]);
    }
  }

  lemma InitOk()
    ensures Inv(Init())
  {
  }

  // ---------------------------------------------------------------------------------------------
  // What a client may rely on
  // ---------------------------------------------------------------------------------------------

  predicate Succeeded(j: Handler) {
    j.Done? && (j.response.Made? || j.response.Found?)
  }

  /** Exactly one outbox row names the run. */
  predicate OneRow(s: State, r: RetryRun) {
    && OutboxRow(r.id, KeyText(r.key)) in s.outbox
    && (forall i, j | 0 <= i < j < |s.outbox| :: !(s.outbox[i].run == r.id && s.outbox[j].run == r.id))
  }

  /**
  Under any interleaving and any crashes: at most one run exists for a source and key, it has exactly one outbox row,
  committed with it, and every successful answer to a request with that source and key names it.
  */
  lemma AtMostOneRetry(acts: seq<Action>)
    ensures
      var s := Exec(Init(), acts);
      && (forall i, j | 0 <= i < |s.runs| && 0 <= j < |s.runs| && s.runs[i].key == s.runs[j].key :: i == j)
      && (forall i | 0 <= i < |s.runs| :: OneRow(s, s.runs[i]))
      && (forall h | h in s.handlers && Succeeded(s.handlers[h]) ::
            Lookup(s.runs, s.handlers[h].key) == Some(s.handlers[h].response.run))
  {
    hide Step, Exec, KeyText, RowOk, RecoveryOk;
    InvAlways(acts);
    var s := Exec(Init(), acts);
    forall i | 0 <= i < |s.runs| ensures OneRow(s, s.runs[i]) { assert RunOk(s, s.runs[i]); }
    forall h | h in s.handlers && Succeeded(s.handlers[h])
      ensures Lookup(s.runs, s.handlers[h].key) == Some(s.handlers[h].response.run)
    {
      AnswerIsLookup(s, h);
    }
  }

  lemma AnswerIsLookup(s: State, h: nat)
    requires Inv(s) && h in s.handlers && Succeeded(s.handlers[h])
    ensures Lookup(s.runs, s.handlers[h].key) == Some(s.handlers[h].response.run)
  {
    hide RowOk, RecoveryOk, RunOk, KeyText;
    assert HandlerOk(s, h, s.handlers[h]);
    var key := s.handlers[h].key;
    var i :| 0 <= i < |s.runs| && s.runs[i] == RetryRun(s.handlers[h].response.run, key);
    var found := Lookup(s.runs, key);
    assert found.Some?;
    var j :| 0 <= j < |s.runs| && s.runs[j] == RetryRun(found.value, key);
  }

  /** The key fits its column and is not the identifier of a recovered successor of its source. */
  predicate Usable(s: State, key: Key) {
    |key.key| <= KEY_WIDTH - |PREFIX| - ID_WIDTH - 1 && Recovery(key.source, key.key) !in s.recovered
  }

  /**
  The answer to a handler that looked, found nothing and is not kept waiting: it makes the run exactly when no run with
  its key was committed since, the key fits the column and is not the identifier of a recovered successor.  In every
  other case it gets an error, never the run of another handler.
  */
  lemma AnswerOfAHandler(acts: seq<Action>, h: nat, id: string)
    requires h in Exec(Init(), acts).handlers && Exec(Init(), acts).handlers[h].Looked?
    requires !Contended(Exec(Init(), acts), h, Exec(Init(), acts).handlers[h].key) && Fresh(Exec(Init(), acts), id)
    ensures
      var s := Exec(Init(), acts);
      var key := s.handlers[h].key;
      var s' := Step(Step(s, Flush(h, id)), Commit(h));
      && h in s'.handlers && s'.handlers[h].Done?
      && s'.handlers[h].response in {Made(id), ServerError}
      && (s'.handlers[h].response == Made(id) <==>
            && (forall i | 0 <= i < |s.runs| :: s.runs[i].key != key)
            && |key.key| <= 85 && Recovery(key.source, key.key) !in s.recovered)
  {
    hide Exec, Inv;
    InvAlways(acts);
    var s := Exec(Init(), acts);
    FlushedIsOk(s, h);
    if Lookup(s.runs, s.handlers[h].key).None? {
      FlushKeeps(s, h, id);
      var s1 := Step(s, Flush(h, id));
      OutboxKeyIsTaken(s1, h);
    }
  }

  /**
  The first answer to a request: a run that is not finished cannot be retried, a committed run with the key is returned,
  and otherwise the handler goes on.
  */
  lemma AnswerOfALook(acts: seq<Action>, h: nat, key: Key, terminal: bool)
    requires h !in Exec(Init(), acts).handlers && IsId(key.source)
    ensures
      var s := Exec(Init(), acts);
      var s' := Step(s, Start(h, key, terminal));
      && h in s'.handlers && s' == s.(handlers := s.handlers[h := s'.handlers[h]]) && s'.handlers[h].key == key
      && (!terminal <==> s'.handlers[h] == Done(key, Refused))
      && (s'.handlers[h].Looked? <==> terminal && forall i | 0 <= i < |s.runs| :: s.runs[i].key != key)
      && (s'.handlers[h].Done? && terminal ==>
            s'.handlers[h].response.Found? && RetryRun(s'.handlers[h].response.run, key) in s.runs)
  {
    hide Exec, KeyText;
    var s := Exec(Init(), acts);
    var found := Lookup(s.runs, key);
    if found.Some? {
      var i :| 0 <= i < |s.runs| && s.runs[i] == RetryRun(found.value, key);
    }
  }

  // ---------------------------------------------------------------------------------------------
  // Requests that fail
  // ---------------------------------------------------------------------------------------------

  lemma ExecMore(acts: seq<Action>, act: Action)
    ensures Exec(Init(), acts + [act]) == Step(Exec(Init(), acts), act)
  {
    hide Step;
    assert (acts + [act])[..|acts|] == acts;
  }

  lemma NoActions()
    ensures Exec(Init(), []) == Init()
  {
  }

  const RUN_1 := "00000000-0000-4000-8000-000000000001"
  const RUN_2 := "00000000-0000-4000-8000-000000000002"
  const RUN_3 := "00000000-0000-4000-8000-000000000003"

  lemma DistinctIds()
    ensures RUN_2 != RUN_3
  {
    assert RUN_2[35] != RUN_3[35];
  }

  /** Two requests with the same key both look, and one of them inserts its run. */
  lemma BothLook(k: Key) returns (acts: seq<Action>)
    requires k == Key(RUN_1, "")
    ensures
      var s := Exec(Init(), acts);
      && s.runs == [] && s.outbox == [] && s.ids == {RUN_2}
      && s.handlers == map[1 := Flushed(k, RUN_2), 2 := Looked(k)]
  {
    hide Exec;
    var none: seq<Action> := [];
    NoActions();
    ExecMore(none, Start(1, k, true));
    var a1 := none + [Start(1, k, true)];
    ExecMore(a1, Start(2, k, true));
    var a2 := a1 + [Start(2, k, true)];
    ExecMore(a2, Flush(1, RUN_2));
    acts := a2 + [Flush(1, RUN_2)];
  }

  /** The race does occur: two requests with the same key, one run, one error. */
  lemma RaceLosesOne()
    ensures exists acts: seq<Action> ::
              var s := Exec(Init(), acts);
              && 1 in s.handlers && s.handlers[1] == Done(Key(RUN_1, ""), Made(RUN_2))
              && 2 in s.handlers && s.handlers[2] == Done(Key(RUN_1, ""), ServerError)
  {
    hide Exec;
    var k := Key(RUN_1, "");
    var a3 := BothLook(k);
    ExecMore(a3, Commit(1));
    var a4 := a3 + [Commit(1)];
    assert Exec(Init(), a4).runs == [RetryRun(RUN_2, k)];
    ExecMore(a4, Flush(2, RUN_3));
    assert Fresh(Exec(Init(), a4), RUN_3) by { DistinctIds(); }
    assert Exec(Init(), a4 + [Flush(2, RUN_3)]).handlers[2] == Done(k, ServerError);
  }

  /** A lone request fails when its key is the identifier of the run that recovery made. */
  lemma RecoveredKeyFails()
    ensures exists acts: seq<Action> ::
              var s := Exec(Init(), acts);
              s.runs == [] && 1 in s.handlers && s.handlers[1] == Done(Key(RUN_1, RUN_2), ServerError)
  {
    hide Exec;
    var k := Key(RUN_1, RUN_2);
    var none: seq<Action> := [];
    NoActions();
    ExecMore(none, Recover(RUN_1, RUN_2));
    var a1 := none + [Recover(RUN_1, RUN_2)];
    assert Exec(Init(), a1).outbox == [OutboxRow(RUN_2, KeyText(k))];
    ExecMore(a1, Start(1, k, true));
    var a2 := a1 + [Start(1, k, true)];
    DistinctIds();
    ExecMore(a2, Flush(1, RUN_3));
    var a3 := a2 + [Flush(1, RUN_3)];
    var s3 := Exec(Init(), a3);
    assert s3.handlers[1] == Flushed(k, RUN_3) && s3.outbox[0].text == KeyText(k);
    ExecMore(a3, Commit(1));
    assert Exec(Init(), a3 + [Commit(1)]).handlers[1] == Done(k, ServerError);
  }

  /** The key of a request: trimmed and cut, or a default when none was sent. */
  function ClientKey(raw: string): (key: string)
    ensures |key| <= 128
  {
    if raw == "" then "default"
    else
      var t := Trim(raw, PySpace);
      if |t| > 128 then t[..128] else t
  }

  /** What a client sends is its key, without the white space around it and cut to 128 characters. */
  lemma ClientKeyKeeps(raw: string)
    ensures raw == "" ==> ClientKey(raw) == "default"
    ensures raw != "" ==>
              exists i: nat, j: nat ::
                Stripped(raw, i, j, PySpace) && ClientKey(raw) == raw[i..if j - i <= 128 then j else i + 128]
  {
    hide PySpace;
    TrimIsMiddle(raw, PySpace);
    if raw != "" {
      var i: nat, j: nat :| Stripped(raw, i, j, PySpace) && Trim(raw, PySpace) == raw[i..j];
      assert j - i > 128 ==> raw[i..j][..128] == raw[i..i + 128];
    }
  }

  /** Two keys without white space at their ends are the same to the server exactly when they agree so far. */
  lemma ClientKeysDiffer(a: string, b: string)
    requires a != "" && !PySpace(a[0]) && !PySpace(a[|a| - 1])
    requires b != "" && !PySpace(b[0]) && !PySpace(b[|b| - 1])
    ensures ClientKey(a) == ClientKey(b) <==> if |a| <= 128 && |b| <= 128 then a == b
                                              else |a| >= 128 && |b| >= 128 && a[..128] == b[..128]
  {
    hide PySpace;
    TrimKeeps(a, PySpace);
    TrimKeeps(b, PySpace);
    assert |a| <= 128 ==> a == a[..|a|];
    assert |b| <= 128 ==> b == b[..|b|];
  }

  /** The endpoint when no other request interferes. */
  class Endpoint {
    var runs: seq<RetryRun>
    var recovered: seq<Recovery>
    var outbox: seq<OutboxRow>
    var ids: set<string>

    ghost function View(): (s: State)
      reads this
    {
      State(runs, recovered, outbox, map[], ids)
    }

    ghost predicate Valid()
      reads this
    {
      Inv(View())
    }

    constructor ()
      ensures Valid() && View() == Init()
    {
      runs, recovered, outbox, ids := [], [], [], {};
    }

    /** What the scheduler writes between two requests. */
    method RecoverRun(source: string, id: string)
      requires Valid() && IsId(source) && Fresh(View(), id)
      modifies this
      ensures View() == Step(old(View()), Recover(source, id)) && Valid()
    {
      RecoverKeeps(View(), source, id);
      var text := KeyText(Key(source, id));
      if exists i :: 0 <= i < |outbox| && outbox[i].text == text {
        return;
      }
      recovered := recovered + [Recovery(source, id)];
      outbox := outbox + [OutboxRow(id, text)];
      ids := ids + {id};
    }

    /**
    Get or create: alone, a request for a finished run is answered with the existing run, or makes one if its key is
    usable, and fails otherwise.
    */
    method Request(source: string, rawKey: string, terminal: bool, id: string) returns (r: Response)
      requires Valid() && IsId(source) && Fresh(View(), id)
      modifies this
      ensures Valid()
      ensures
        var key := Key(source, ClientKey(rawKey));
        if !terminal then r == Refused && View() == old(View())
        else if Lookup(old(runs), key).Some? then r == Found(Lookup(old(runs), key).value) && View() == old(View())
        else if Usable(old(View()), key) then
          && r == Made(id)
          && runs == old(runs) + [RetryRun(id, key)]
          && outbox == old(outbox) + [OutboxRow(id, KeyText(key))] && recovered == old(recovered)
        else r == ServerError && runs == old(runs) && outbox == old(outbox) && recovered == old(recovered)
    {
      hide KeyText, Inv, ClientKey;
      var key := Key(source, ClientKey(rawKey));
      if !terminal {
        return Refused;
      }
      var existing := Lookup(runs, key);
      if existing.Some? {
        return Found(existing.value);
      }
      ghost var looked := State(runs, recovered, outbox, map[0 := Looked(key)], ids);
      LoneHandler(View(), looked, key);
      FlushKeeps(looked, 0, id);
      ghost var flushed := Step(looked, Flush(0, id));
      CommitKeeps(flushed, 0);
      OutboxKeyIsTaken(flushed, 0);
      WidthOf(key);
      Forget(Step(flushed, Commit(0)));
      Forget(flushed);
      ids := ids + {id};
      var text := KeyText(key);
      if |text| > KEY_WIDTH {
        return ServerError;
      }
      if exists i :: 0 <= i < |outbox| && outbox[i].text == text {
        return ServerError;
      }
      runs := runs + [RetryRun(id, key)];
      outbox := outbox + [OutboxRow(id, text)];
      return Made(id);
    }
  }

  lemma WidthOf(key: Key)
    requires IsId(key.source)
    ensures |KeyText(key)| <= KEY_WIDTH <==> |key.key| <= KEY_WIDTH - |PREFIX| - ID_WIDTH - 1
  {
  }

  lemma LoneHandler(s: State, s': State, key: Key)
    requires Inv(s) && s' == s.(handlers := map[0 := Looked(key)]) && IsId(key.source)
    ensures Inv(s') && !Contended(s', 0, key)
  {
    MovedKeeps(s.(handlers := map[]), s', 0) by { Forget(s); }
  }

  lemma Forget(s: State)
    requires Inv(s)
    ensures Inv(s.(handlers := map[]))
  {
    SameTables(s, s.(handlers := map[]));
  }
}
