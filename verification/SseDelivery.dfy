/** The browser end of the stream, updating its fields as the bytes arrive. */
module EventSource {
  import opened Types
  import opened Text
  import opened SseFrames

  class Connection {
    var buf: string
    var curId: string
    var curData: string
    var lastId: string
    var retryMs: int
    var events: seq<(string, string)>

    function View(): (p: Parser)
      reads this
    {
      Parser(buf, curId, curData, lastId, retryMs, events)
    }

    /** `stored` is the id kept in local storage from an earlier visit, or empty. */
    constructor (stored: string)
      ensures View() == Parser("", "", "", stored, 1000, [])
    {
      buf, curId, curData, lastId, retryMs, events := "", "", "", stored, 1000, [];
    }

    /** A new connection forgets the pending text and keeps the last id. */
    method Open()
      modifies this
      ensures View() == Opened(old(View()))
      ensures buf == curId == curData == "" && retryMs == 1000 && lastId == old(lastId) && events == old(events)
    {
      retryMs := 1000;
      buf, curId, curData := "", "", "";
    }

    method ReadLine(line: string)
      modifies this
      ensures View() == ApplyLine(old(View()), line)
      ensures events == old(events) && lastId == old(lastId) && buf == old(buf)
      ensures curData == old(curData) || old(curData) == "" || old(curData) + "\n" <= curData
    {
      if Starts(line, "id:") {
        curId := Trim(line[3..], JsSpace);
      } else if Starts(line, "data:") {
        curData := curData + (if curData != "" then "\n" else "") + TrimStart(line[5..], JsSpace);
      } else if Starts(line, "retry:") {
        var v := ParseInt(Trim(line[6..], JsSpace));
        if v.Some? {
          retryMs := if v.value > 1000 then v.value else 1000;
        }
      }
    }

    method EndFrame(frame: string)
      modifies this
      ensures View() == Dispatch(old(View()), frame)
      ensures buf == old(buf) && retryMs == old(retryMs)
      ensures events == old(events) || events == old(events) + [(old(curData), old(curId))]
      ensures lastId != old(lastId) ==> lastId == old(curId) && curId == "" && curData == ""
    {
      hide Trim;
      if Contains(frame, "data:") {
        if curId != "" {
          lastId := curId;
        }
        var id, data := curId, curData;
        curId, curData := "", "";
        if data != "" {
          events := events + [(data, id)];
        }
      } else if Starts(Trim(frame, JsSpace), ":") {
        curId, curData := "", "";
      }
    }

    method Receive(chunk: string)
      modifies this
      ensures View() == SseFrames.Feed(old(View()), chunk)
    {
      hide ApplyLine, Dispatch;
      buf := buf + chunk;
      ghost var whole := View();
      var idx := FindBlank(buf);
      while idx.Some?
        invariant idx == FindBlank(buf)
        invariant Drain(View()) == Drain(whole)
        decreases |buf|
      {
        var frame := buf[..idx.value];
        ghost var before := View();
        buf := buf[idx.value + 2..];
        ghost var start := View();
        var lines := SplitLines(frame);
        for i := 0 to |lines|
          invariant View() == ApplyLines(start, lines[..i])
        {
          assert lines[..i + 1][..i] == lines[..i];
          ReadLine(lines[i]);
        }
        assert lines[..|lines|] == lines;
        EndFrame(frame);
        FrameIgnoresBuffer(before, frame, start.buf);
        FrameKeepsBuffer(start, frame);
        idx := FindBlank(buf);
      }
    }
  }

  lemma FrameKeepsBuffer(p: Parser, frame: string)
    ensures TakeFrame(p, frame).buf == p.buf
  {
    LinesIgnoreBuffer(p, SplitLines(frame), p.buf);
  }
}

/** Delivery of the log to one browser over any number of cut connections. */
module SseDelivery {
  import opened Types
  import opened Text
  import opened SseFrames
  import opened EventLog

  const PAGE := 50

  /** Python's `strip` and `isdigit`, on ASCII digits. */
  function Number(raw: string): (n: Option<nat>) {
    var s := Trim(raw, PySpace);
    if AllDigits(s) then Some(FromDecimal(s)) else None
  }

  /** The header wins over the two spellings of the query parameter; an absent one is empty. */
  function ParseCursor(header: string, query: string, query2: string): (cursor: nat) {
    var q := if query != "" then query else query2;
    if Number(header).Some? then Number(header).value
    else if Number(q).Some? then Number(q).value
    else 0
  }

  /** The cursor the server works out when the browser reconnects: it sends its id in the header and in the query. */
  function Cursor(lastId: string): (cursor: nat) {
    ParseCursor(lastId, lastId, "")
  }

  /** The result of selecting `limit` rows beyond the cursor in order of their number, from a table in any order. */
  predicate IsPage(log: seq<Event>, cursor: nat, limit: nat, rows: seq<Event>) {
    && |rows| <= limit
    && Increasing(rows)
    && (forall i | 0 <= i < |rows| :: rows[i] in log && rows[i].gseq > cursor)
    && (forall e | e in log && e.gseq > cursor && e !in rows ::
          |rows| == limit && forall i | 0 <= i < |rows| :: rows[i].gseq < e.gseq)
  }

  /** One turn of the server's loop: the number of log steps done before it, the rows read, and the clock's text. */
  datatype Poll = Poll(time: nat, rows: seq<Event>, at: string)

  function Advance(cursor: nat, rows: seq<Event>): (c: nat) {
    if rows == [] then cursor
    else
      var c := Advance(cursor, rows[..|rows| - 1]);
      if rows[|rows| - 1].gseq > c then rows[|rows| - 1].gseq else c
  }

  function MessageOf(e: Event, body: Event -> string): (f: Frame) {
    Message(e.gseq, body(e))
  }

  function MessagesOf(rows: seq<Event>, body: Event -> string): (frames: seq<Frame>)
    ensures |frames| == |rows|
  {
    seq(|rows|, i requires 0 <= i < |rows| => MessageOf(rows[i], body))
  }

  function PollFrames(poll: Poll, body: Event -> string): (frames: seq<Frame>) {
    if poll.rows != [] then MessagesOf(poll.rows, body) else [Keepalive(poll.at)]
  }

  function Frames(polls: seq<Poll>, body: Event -> string): (frames: seq<Frame>) {
    if polls == [] then [Retry] else Frames(polls[..|polls| - 1], body) + PollFrames(polls[|polls| - 1], body)
  }

  /** The cursor after some turns. */
  function CursorAfter(cursor: nat, polls: seq<Poll>): (c: nat) {
    if polls == [] then cursor
    else Advance(CursorAfter(cursor, polls[..|polls| - 1]), polls[|polls| - 1].rows)
  }

  function LogAt(acts: seq<LogAction>, time: nat): (log: seq<Event>) {
    Exec(Init(), acts[..if time < |acts| then time else |acts|]).committed
  }

  /** Every turn reads a page beyond the cursor from the log as committed at its time. */
  predicate Served(acts: seq<LogAction>, cursor: nat, polls: seq<Poll>) {
    forall i | 0 <= i < |polls| :: PollOk(acts, CursorAfter(cursor, polls[..i]), polls[i])
  }

  predicate PollOk(acts: seq<LogAction>, cursor: nat, poll: Poll) {
    IsPage(LogAt(acts, poll.time), cursor, PAGE, poll.rows) && IsoText(poll.at)
  }

  lemma NoPolls(cursor: nat, body: Event -> string)
    ensures Frames([], body) == [Retry] && CursorAfter(cursor, []) == cursor
  {
  }

  lemma OnePollMore(cursor: nat, polls: seq<Poll>, t: nat, body: Event -> string)
    requires t < |polls|
    ensures Frames(polls[..t + 1], body) == Frames(polls[..t], body) + PollFrames(polls[t], body)
    ensures CursorAfter(cursor, polls[..t + 1]) == Advance(CursorAfter(cursor, polls[..t]), polls[t].rows)
    ensures forall c :: Advance(c, []) == c
  {
    assert polls[..t + 1][..t] == polls[..t];
  }

  lemma NoRows(cursor: nat, body: Event -> string)
    ensures Advance(cursor, []) == cursor && MessagesOf([], body) == []
  {
  }

  lemma OneRowMore(cursor: nat, rows: seq<Event>, i: nat, body: Event -> string)
    requires i < |rows|
    ensures
      var c := Advance(cursor, rows[..i]);
      Advance(cursor, rows[..i + 1]) == if rows[i].gseq > c then rows[i].gseq else c
    ensures MessagesOf(rows[..i + 1], body) == MessagesOf(rows[..i], body) + [MessageOf(rows[i], body)]
  {
    assert rows[..i + 1][..i] == rows[..i];
  }

  /** The server's generator, stopped after some number of turns. */
  method Generate(header: string, query: string, query2: string, polls: seq<Poll>, body: Event -> string)
    returns (frames: seq<Frame>, cur: nat)
    ensures frames == Frames(polls, body)
    ensures cur == CursorAfter(ParseCursor(header, query, query2), polls)
  {
    hide ParseCursor, MessageOf, MessagesOf, Advance, Frames, CursorAfter;
    NoPolls(ParseCursor(header, query, query2), body);
    cur := ParseCursor(header, query, query2);
    frames := [Retry];
    var none: seq<Poll> := [];
    assert polls[..0] == none;
    for t := 0 to |polls|
      invariant frames == Frames(polls[..t], body)
      invariant cur == CursorAfter(ParseCursor(header, query, query2), polls[..t])
    {
      OnePollMore(ParseCursor(header, query, query2), polls, t, body);
      var rows := polls[t].rows;
      if rows != [] {
        ghost var sent, from := frames, cur;
        NoRows(cur, body);
        ghost var nothing: seq<Event> := [];
        assert rows[..0] == nothing;
        for i := 0 to |rows|
          invariant cur == Advance(from, rows[..i])
          invariant frames == sent + MessagesOf(rows[..i], body)
        {
          OneRowMore(from, rows, i, body);
          cur := if rows[i].gseq > cur then rows[i].gseq else cur;
          frames := frames + [MessageOf(rows[i], body)];
        }
        assert rows[..|rows|] == rows;
      } else {
        frames := frames + [Keepalive(polls[t].at)];
      }
    }
    assert polls[..|polls|] == polls;
  }

  // ---------------------------------------------------------------------------------------------
  // Pages are slices of the log
  // ---------------------------------------------------------------------------------------------

  /** The events with numbers above `lo` and up to `hi`. */
  function Between(log: seq<Event>, lo: nat, hi: nat): (es: seq<Event>) {
    if log == [] then []
    else
      var e := log[|log| - 1];
      Between(log[..|log| - 1], lo, hi) + if lo < e.gseq <= hi then [e] else []
  }

  /** How many events have numbers up to `c`. */
  function UpTo(log: seq<Event>, c: nat): (n: nat)
    ensures n <= |log|
  {
    if log == [] then 0 else UpTo(log[..|log| - 1], c) + if log[|log| - 1].gseq <= c then 1 else 0
  }

  lemma {:induction false} UpToCuts(log: seq<Event>, c: nat, i: nat)
    requires Increasing(log) && i < |log|
    ensures log[i].gseq <= c <==> i < UpTo(log, c)
  {
    var n := |log| - 1;
    if i < n {
      UpToCuts(log[..n], c, i);
      if log[n].gseq <= c { UpToAll(log[..n], c); }
    } else if log[n].gseq <= c {
      UpToAll(log[..n], c);
    }
  }

  lemma {:induction false} UpToAll(log: seq<Event>, c: nat)
    requires forall i | 0 <= i < |log| :: log[i].gseq <= c
    ensures UpTo(log, c) == |log|
  {
    if log != [] {
      UpToAll(log[..|log| - 1], c);
    }
  }

  /** A cut that separates smaller from greater numbers is the one UpTo finds. */
  lemma CutIsUpTo(log: seq<Event>, c: nat, k: nat)
    requires Increasing(log) && k <= |log|
    requires k > 0 ==> log[k - 1].gseq <= c
    requires k < |log| ==> log[k].gseq > c
    ensures UpTo(log, c) == k
  {
    if k > 0 { UpToCuts(log, c, k - 1); }
    if k < |log| { UpToCuts(log, c, k); }
  }

  lemma LastUpTo(log: seq<Event>, c: nat)
    requires Increasing(log) && log != []
    ensures Increasing(log[..|log| - 1])
    ensures log[|log| - 1].gseq <= c ==> UpTo(log[..|log| - 1], c) == |log| - 1 && UpTo(log, c) == |log|
    ensures log[|log| - 1].gseq > c ==> UpTo(log, c) == UpTo(log[..|log| - 1], c)
  {
    if log[|log| - 1].gseq <= c { UpToAll(log[..|log| - 1], c); }
  }

  lemma {:induction false} BetweenIsSlice(log: seq<Event>, lo: nat, hi: nat)
    requires Increasing(log) && lo <= hi
    ensures UpTo(log, lo) <= UpTo(log, hi)
    ensures Between(log, lo, hi) == log[UpTo(log, lo)..UpTo(log, hi)]
  {
    hide Increasing, UpTo, Between;
    if log == [] {
      NothingBetween(lo, hi);
    } else {
      var n := |log| - 1;
      LastUpTo(log, lo);
      LastUpTo(log, hi);
      BetweenIsSlice(log[..n], lo, hi);
      BetweenLast(log, lo, hi);
      SliceMore(log, UpTo(log[..n], lo), UpTo(log[..n], hi));
    }
  }

  lemma NothingBetween(lo: nat, hi: nat)
    ensures Between([], lo, hi) == [] && UpTo([], lo) == UpTo([], hi) == 0
  {
  }

  lemma SliceMore(log: seq<Event>, l: nat, h: nat)
    requires log != [] && l <= h < |log|
    ensures log[..|log| - 1][l..h] == log[l..h]
    ensures h == |log| - 1 ==> log[l..h] + [log[h]] == log[l..h + 1]
  {
  }

  lemma BetweenLast(log: seq<Event>, lo: nat, hi: nat)
    requires log != []
    ensures
      var e, before := log[|log| - 1], Between(log[..|log| - 1], lo, hi);
      Between(log, lo, hi) == if lo < e.gseq <= hi then before + [e] else before
  {
  }

  /** In a growing log a page holds the next events beyond the cursor and skips none. */
  lemma {:induction false} PageIsSlice(log: seq<Event>, cursor: nat, limit: nat, rows: seq<Event>, i: nat)
    requires Increasing(log) && IsPage(log, cursor, limit, rows) && i <= |rows|
    ensures UpTo(log, cursor) + i <= |log|
    ensures rows[..i] == log[UpTo(log, cursor)..UpTo(log, cursor) + i]
  {
    hide IsPage, Increasing, UpTo;
    if i > 0 {
      PageIsSlice(log, cursor, limit, rows, i - 1);
      NextRow(log, cursor, limit, rows, i - 1);
      assert rows[..i] == rows[..i - 1] + [rows[i - 1]];
    }
  }

  lemma NextRow(log: seq<Event>, cursor: nat, limit: nat, rows: seq<Event>, i: nat)
    requires Increasing(log) && IsPage(log, cursor, limit, rows) && i < |rows|
    requires UpTo(log, cursor) + i <= |log|
    requires rows[..i] == log[UpTo(log, cursor)..UpTo(log, cursor) + i]
    ensures UpTo(log, cursor) + i < |log| && rows[i] == log[UpTo(log, cursor) + i]
  {
    hide UpTo, IsPage, Increasing;
    var k := UpTo(log, cursor);
    var j := RowAt(log, cursor, limit, rows, i);
    UpToCuts(log, cursor, j);
    RowBehind(log, cursor, limit, rows, i, j);
    if j > k + i {
      UpToCuts(log, cursor, k + i);
      SkippedIsLater(log, cursor, limit, rows, i, k + i);
      InOrder(log, k + i, j);
    }
  }

  lemma RowAt(log: seq<Event>, cursor: nat, limit: nat, rows: seq<Event>, i: nat) returns (j: nat)
    requires IsPage(log, cursor, limit, rows) && i < |rows|
    ensures j < |log| && log[j] == rows[i] && log[j].gseq > cursor
  {
    assert rows[i] in log;
    j :| 0 <= j < |log| && log[j] == rows[i];
  }

  lemma InOrder(log: seq<Event>, i: nat, j: nat)
    requires Increasing(log) && i < j < |log|
    ensures log[i].gseq < log[j].gseq
  {
  }

  lemma RowBehind(log: seq<Event>, cursor: nat, limit: nat, rows: seq<Event>, i: nat, j: nat)
    requires Increasing(log) && IsPage(log, cursor, limit, rows) && i < |rows|
    requires UpTo(log, cursor) + i <= |log| && UpTo(log, cursor) <= j < |log| && log[j] == rows[i]
    requires rows[..i] == log[UpTo(log, cursor)..UpTo(log, cursor) + i]
    ensures j >= UpTo(log, cursor) + i
  {
    hide UpTo;
    if i > 0 {
      assert rows[i - 1] == rows[..i][i - 1] == log[UpTo(log, cursor) + i - 1];
      assert rows[i - 1].gseq < rows[i].gseq;
    }
  }

  /** An event beyond the cursor that is not among the rows is later than all of them. */
  lemma SkippedIsLater(log: seq<Event>, cursor: nat, limit: nat, rows: seq<Event>, i: nat, q: nat)
    requires Increasing(log) && IsPage(log, cursor, limit, rows) && i < |rows|
    requires q == UpTo(log, cursor) + i < |log| && log[q].gseq > cursor
    requires rows[..i] == log[UpTo(log, cursor)..q]
    ensures rows[i].gseq <= log[q].gseq
  {
    hide UpTo;
    if rows[i].gseq > log[q].gseq {
      forall m | 0 <= m < |rows| ensures rows[m] != log[q] {
        if m < i { assert rows[m] == rows[..i][m] == log[UpTo(log, cursor) + m]; }
      }
    }
  }

  /** A page of an earlier state of the log is the slice of the later log beyond the cursor. */
  lemma PageOfFinal(log: seq<Event>, final: seq<Event>, cursor: nat, limit: nat, rows: seq<Event>)
    requires Increasing(final) && log <= final && IsPage(log, cursor, limit, rows)
    ensures Advance(cursor, rows) >= cursor
    ensures rows == Between(final, cursor, Advance(cursor, rows))
  {
    hide IsPage, UpTo, Between, Advance;
    var k, n := UpTo(log, cursor), |rows|;
    assert Increasing(log) by { assert forall i | 0 <= i < |log| :: log[i] == final[i]; }
    PageIsSlice(log, cursor, limit, rows, n);
    assert rows[..n] == rows;
    RowsBeyond(log, cursor, limit, rows);
    AdvanceToLast(cursor, rows);
    var c := Advance(cursor, rows);
    if n > 0 {
      if k > 0 { UpToCuts(log, cursor, k - 1); }
      UpToCuts(log, cursor, k);
      assert rows == final[k..k + n];
      CutIsUpTo(final, cursor, k);
      assert rows[n - 1] == final[k + n - 1];
      CutIsUpTo(final, c, k + n);
    }
    BetweenIsSlice(final, cursor, c);
  }

  lemma RowsBeyond(log: seq<Event>, cursor: nat, limit: nat, rows: seq<Event>)
    requires IsPage(log, cursor, limit, rows)
    ensures Increasing(rows) && forall i | 0 <= i < |rows| :: rows[i].gseq > cursor
  {
  }

  lemma {:induction false} AdvanceToLast(cursor: nat, rows: seq<Event>)
    requires Increasing(rows) && forall i | 0 <= i < |rows| :: rows[i].gseq > cursor
    ensures Advance(cursor, rows) == if rows == [] then cursor else rows[|rows| - 1].gseq
  {
    if rows != [] {
      AdvanceToLast(cursor, rows[..|rows| - 1]);
    }
  }

  lemma BetweenJoins(log: seq<Event>, lo: nat, mid: nat, hi: nat)
    requires Increasing(log) && lo <= mid <= hi
    ensures Between(log, lo, hi) == Between(log, lo, mid) + Between(log, mid, hi)
  {
    BetweenIsSlice(log, lo, hi);
    BetweenIsSlice(log, lo, mid);
    BetweenIsSlice(log, mid, hi);
  }

  lemma InOrderAfter(log: seq<Event>, i: nat)
    requires Increasing(log) && i < |log|
    ensures i + 1 < |log| ==> log[i].gseq < log[i + 1].gseq
  {
  }

  /** What a reader has seen of a range, when it stops early, is again a range. */
  lemma BetweenPrefix(log: seq<Event>, lo: nat, hi: nat, n: nat)
    requires Increasing(log) && lo <= hi && n <= |Between(log, lo, hi)|
    ensures
      var es := Between(log, lo, hi)[..n];
      var c := if n == 0 then lo else es[n - 1].gseq;
      lo <= c && es == Between(log, lo, c)
  {
    hide Between, UpTo;
    BetweenIsSlice(log, lo, hi);
    var k, m := UpTo(log, lo), UpTo(log, hi);
    var es := Between(log, lo, hi)[..n];
    assert log[k..m][..n] == log[k..k + n];
    var c := if n == 0 then lo else es[n - 1].gseq;
    if n > 0 {
      InOrderAfter(log, k + n - 1);
      assert es[n - 1] == log[k + n - 1];
      UpToCuts(log, lo, k + n - 1);
      CutIsUpTo(log, c, k + n);
    }
    BetweenIsSlice(log, lo, c);
  }

  // ---------------------------------------------------------------------------------------------
  // What the server sends on one connection
  // ---------------------------------------------------------------------------------------------

  function Sent(polls: seq<Poll>): (es: seq<Event>) {
    if polls == [] then [] else Sent(polls[..|polls| - 1]) + polls[|polls| - 1].rows
  }

  lemma LogGrows(acts: seq<LogAction>, time: nat)
    ensures LogAt(acts, time) <= Exec(Init(), acts).committed
    ensures Increasing(Exec(Init(), acts).committed)
  {
    var n := if time < |acts| then time else |acts|;
    assert acts == acts[..n] + acts[n..];
    ExecTwice(Init(), acts[..n], acts[n..]);
    CommittedGrows(Exec(Init(), acts[..n]), acts[n..]);
    Reachable(acts);
  }

  /** The pages of one connection, put together, are the committed events from its cursor on, each once. */
  lemma {:induction false} SentIsRange(acts: seq<LogAction>, cursor: nat, polls: seq<Poll>)
    requires Served(acts, cursor, polls)
    ensures CursorAfter(cursor, polls) >= cursor
    ensures Sent(polls) == Between(Exec(Init(), acts).committed, cursor, CursorAfter(cursor, polls))
  {
    hide IsPage, Increasing, Exec, PollOk;
    var final := Exec(Init(), acts).committed;
    LogGrows(acts, 0);
    if polls == [] {
      BetweenIsSlice(final, cursor, cursor);
    } else {
      var n := |polls| - 1;
      var c := CursorAfter(cursor, polls[..n]);
      ServedBefore(acts, cursor, polls);
      SentIsRange(acts, cursor, polls[..n]);
      LogGrows(acts, polls[n].time);
      PageIsOk(acts, c, polls[n]);
      PageOfFinal(LogAt(acts, polls[n].time), final, c, PAGE, polls[n].rows);
      BetweenJoins(final, cursor, c, CursorAfter(cursor, polls));
    }
  }

  /** One turn sends at most 50 events, and fewer only when it sends all that were committed beyond the cursor. */
  lemma PageIsFull(acts: seq<LogAction>, cursor: nat, poll: Poll)
    requires PollOk(acts, cursor, poll)
    ensures |poll.rows| <= 50
    ensures |poll.rows| < 50 ==> forall e | e in LogAt(acts, poll.time) && e.gseq > cursor :: e in poll.rows
  {
    hide LogAt;
  }

  lemma PageIsOk(acts: seq<LogAction>, cursor: nat, poll: Poll)
    requires PollOk(acts, cursor, poll)
    ensures IsPage(LogAt(acts, poll.time), cursor, PAGE, poll.rows) && IsoText(poll.at)
  {
  }

  lemma ServedBefore(acts: seq<LogAction>, cursor: nat, polls: seq<Poll>)
    requires Served(acts, cursor, polls) && polls != []
    ensures Served(acts, cursor, polls[..|polls| - 1])
    ensures PollOk(acts, CursorAfter(cursor, polls[..|polls| - 1]), polls[|polls| - 1])
  {
    hide PollOk;
    var n := |polls| - 1;
    forall i | 0 <= i < n ensures PollOk(acts, CursorAfter(cursor, polls[..n][..i]), polls[..n][i]) {
      assert polls[..n][..i] == polls[..i];
    }
  }

  /** Events as the browser hands them on. */
  function Pairs(es: seq<Event>, body: Event -> string): (ps: seq<(string, string)>)
    ensures |ps| == |es|
  {
    seq(|es|, i requires 0 <= i < |es| => (body(es[i]), ToDecimal(es[i].gseq)))
  }

  lemma {:induction false} MessagesOfRows(rows: seq<Event>, body: Event -> string)
    ensures Messages(MessagesOf(rows, body)) == Pairs(rows, body)
  {
    if rows != [] {
      var n := |rows| - 1;
      MessagesOfRows(rows[..n], body);
      assert MessagesOf(rows, body)[..n] == MessagesOf(rows[..n], body);
    }
  }

  lemma PollCarries(poll: Poll, body: Event -> string)
    ensures Messages(PollFrames(poll, body)) == Pairs(poll.rows, body)
  {
    if poll.rows != [] {
      MessagesOfRows(poll.rows, body);
    } else {
      var none: seq<Frame> := [];
      assert [Keepalive(poll.at)][..0] == none;
    }
  }

  lemma RetryCarriesNothing(body: Event -> string)
    ensures Messages([Retry]) == [] && Pairs([], body) == []
  {
    var none: seq<Frame> := [];
    assert [Retry][..0] == none;
  }

  lemma PairsAppend(a: seq<Event>, b: seq<Event>, body: Event -> string)
    ensures Pairs(a + b, body) == Pairs(a, body) + Pairs(b, body)
  {
  }

  lemma {:induction false} FramesCarrySent(polls: seq<Poll>, body: Event -> string)
    ensures Messages(Frames(polls, body)) == Pairs(Sent(polls), body)
  {
    hide Messages, Pairs, PollFrames;
    if polls == [] {
      RetryCarriesNothing(body);
    } else {
      var n := |polls| - 1;
      FramesCarrySent(polls[..n], body);
      MessagesAppend(Frames(polls[..n], body), PollFrames(polls[n], body));
      PollCarries(polls[n], body);
      PairsAppend(Sent(polls[..n]), polls[n].rows, body);
    }
  }

  lemma {:induction false} FramesWellFormed(acts: seq<LogAction>, cursor: nat, polls: seq<Poll>, body: Event -> string)
    requires Served(acts, cursor, polls) && forall e :: ObjectText(body(e))
    ensures forall i | 0 <= i < |Frames(polls, body)| :: WellFormed(Frames(polls, body)[i])
  {
    hide IsPage, Exec, ObjectText, IsoText, PollOk;
    if polls != [] {
      ServedBefore(acts, cursor, polls);
      FramesWellFormed(acts, cursor, polls[..|polls| - 1], body);
      PageIsOk(acts, CursorAfter(cursor, polls[..|polls| - 1]), polls[|polls| - 1]);
    }
  }

  // ---------------------------------------------------------------------------------------------
  // What the browser makes of a stream cut anywhere
  // ---------------------------------------------------------------------------------------------

  /** How many frames are complete in the first bytes of a stream. */
  function Complete(frames: seq<Frame>, t: string): (k: nat)
    ensures k <= |frames|
    decreases |frames|
  {
    if frames == [] || |t| < |Body(frames[0])| + 2 then 0
    else 1 + Complete(frames[1..], t[|Body(frames[0])| + 2..])
  }

  /** A stream cut anywhere has the effect of its complete frames; what is left waits in the buffer. */
  lemma {:induction false} CutStream(p: Parser, frames: seq<Frame>, t: string)
    requires Fresh(p) && p.buf == "" && forall i | 0 <= i < |frames| :: WellFormed(frames[i])
    requires t <= Print(frames)
    ensures Feed(p, t).(buf := "") == Effects(p, frames[..Complete(frames, t)])
    decreases |frames|
  {
    hide Body, WellFormed, FindBlank, TakeFrame, Drain;
    assert p.buf + t == t;
    if frames == [] {
      NothingToDrain(p);
    } else {
      var f := frames[0];
      var b := Body(f);
      if |t| < |b| + 2 {
        NoFrameYet(p, f, Print(frames[1..]), t);
      } else {
        var rest := t[|b| + 2..];
        assert t == b + "\n\n" + rest;
        DrainOne(p.(buf := t), f, rest);
        TakeBody(p, f);
        var k := Complete(frames[1..], rest);
        CutStream(Effect(p, f), frames[1..], rest);
        assert Effect(p, f).buf + rest == rest;
        assert Effect(p.(buf := t), f).(buf := rest) == Effect(p, f).(buf := rest);
        assert frames[..1 + k][1..] == frames[1..][..k] && frames[..1 + k][0] == f;
      }
    }
  }

  lemma NoFrameYet(p: Parser, f: Frame, rest: string, t: string)
    requires WellFormed(f) && t <= Body(f) + "\n\n" + rest && |t| < |Body(f)| + 2
    ensures Drain(p.(buf := t)) == p.(buf := t)
  {
    hide Body;
    BodyEnds(f, rest);
    var whole := Body(f) + "\n\n" + rest;
    forall k | 0 <= k && k + 1 < |t| ensures t[k] != '\n' || t[k + 1] != '\n' {
      assert whole[k] == t[k] && whole[k + 1] == t[k + 1];
    }
  }

  lemma {:induction false} MessagesPrefix(frames: seq<Frame>, k: nat)
    requires k <= |frames|
    ensures Messages(frames[..k]) <= Messages(frames)
  {
    MessagesAppend(frames[..k], frames[k..]);
    assert frames == frames[..k] + frames[k..];
  }

  /** The id kept is the id of the last message, if there was one. */
  lemma {:induction false} LastIdKept(p: Parser, frames: seq<Frame>)
    ensures
      var ms := Messages(frames);
      Effects(p, frames).lastId == if ms == [] then p.lastId else ms[|ms| - 1].1
    decreases |frames|
  {
    if frames != [] {
      LastIdKept(Effect(p, frames[0]), frames[1..]);
      assert frames == [frames[0]] + frames[1..];
      MessagesAppend([frames[0]], frames[1..]);
      var none: seq<Frame> := [];
      assert [frames[0]][..0] == none;
    }
  }

  lemma CursorOfId(g: nat)
    ensures Cursor(ToDecimal(g)) == g
  {
    NumberOfId(g);
  }

  /** Without the white space around it, the text is empty or holds something that is not a digit. */
  predicate NoNumber(raw: string) {
    var s := Trim(raw, PySpace);
    s == "" || exists i :: 0 <= i < |s| && !('0' <= s[i] <= '9')
  }

  lemma NoNumberMeans(raw: string)
    ensures NoNumber(raw) <==> Number(raw).None?
  {
  }

  /**
  Where a stream starts: a number in the header decides whatever the query says; without one, a number in the query
  does, whose second spelling is read only when the first is empty; and with neither it starts at the very beginning.
  */
  lemma CursorStarts(n: nat, header: string, query: string, query2: string)
    ensures ParseCursor(ToDecimal(n), query, query2) == n
    ensures NoNumber(header) ==> ParseCursor(header, ToDecimal(n), query2) == n
    ensures NoNumber(header) ==> ParseCursor(header, "", ToDecimal(n)) == n
    ensures NoNumber(header) && query != "" && NoNumber(query) ==> ParseCursor(header, query, query2) == 0
    ensures NoNumber(header) && NoNumber(query2) ==> ParseCursor(header, "", query2) == 0
    ensures NoNumber("")
  {
    hide NoNumber, Number, ToDecimal;
    NumberOfId(n);
    NoNumberMeans(header);
    NoNumberMeans(query);
    NoNumberMeans(query2);
    assert NoNumber("") by { EmptyIsNoNumber(); }
    assert ToDecimal(n) != "";
  }

  lemma EmptyIsNoNumber()
    ensures NoNumber("") && Number("") == None
  {
  }

  lemma NumberOfId(g: nat)
    ensures Number(ToDecimal(g)) == Some(g) && ToDecimal(g) != ""
  {
    var s := ToDecimal(g);
    assert IsDigit(s[0]) && IsDigit(s[|s| - 1]);
    TrimKeeps(s, PySpace);
    DecimalRoundTrip(g);
  }

  /** One connection: what the server worked through, and the bytes that reached the browser. */
  datatype Visit = Visit(polls: seq<Poll>, chunks: seq<string>)

  /** The server resumes from the browser's id; the browser reads the stream up to any byte, in any chunks. */
  predicate VisitOk(acts: seq<LogAction>, p: Parser, v: Visit, body: Event -> string) {
    Served(acts, Cursor(p.lastId), v.polls) && Concat(v.chunks) <= Print(Frames(v.polls, body))
  }

  function AfterVisit(p: Parser, v: Visit): (q: Parser) {
    FeedAll(Opened(p), v.chunks)
  }

  /** The id kept is that of the last event, or the old one when there was no event. */
  predicate NamesLast(was: string, es: seq<Event>, id: string) {
    id == if es == [] then was else ToDecimal(es[|es| - 1].gseq)
  }

  lemma SameName(id: string)
    ensures NamesLast(id, [], id)
  {
  }

  lemma NamesLastJoins(first: string, a: seq<Event>, middle: string, b: seq<Event>, last: string)
    requires NamesLast(first, a, middle) && NamesLast(middle, b, last)
    ensures NamesLast(first, a + b, last)
  {
    if b == [] { assert a + b == a; }
  }

  /** On one connection the browser dispatches exactly the committed events between the two cursors. */
  lemma OneConnection(acts: seq<LogAction>, p: Parser, v: Visit, body: Event -> string)
    requires VisitOk(acts, p, v, body) && forall e :: ObjectText(body(e))
    ensures
      var q := AfterVisit(p, v);
      && Cursor(p.lastId) <= Cursor(q.lastId)
      && q.events ==
         p.events + Pairs(Between(Exec(Init(), acts).committed, Cursor(p.lastId), Cursor(q.lastId)), body)
      && NamesLast(p.lastId, Between(Exec(Init(), acts).committed, Cursor(p.lastId), Cursor(q.lastId)), q.lastId)
  {
    hide IsPage, Exec, PollOk, Cursor, Increasing, VisitOk, AfterVisit, Between, CursorAfter, ToDecimal, NamesLast;
    var lo := Cursor(p.lastId);
    var final := Exec(Init(), acts).committed;
    var n := SentArrives(acts, p, v, body);
    ServedFrom(acts, p, v, body);
    SentIsRange(acts, lo, v.polls);
    LogGrows(acts, 0);
    var es := Sent(v.polls)[..n];
    if n > 0 { CursorOfId(es[n - 1].gseq); }
    assert NamesLast(p.lastId, es, AfterVisit(p, v).lastId);
    LastName(p.lastId, es, AfterVisit(p, v).lastId);
    BetweenPrefix(final, lo, CursorAfter(lo, v.polls), n);
  }

  lemma LastName(was: string, es: seq<Event>, id: string)
    requires NamesLast(was, es, id)
    ensures id == if es == [] then was else ToDecimal(es[|es| - 1].gseq)
  {
  }

  lemma ServedFrom(acts: seq<LogAction>, p: Parser, v: Visit, body: Event -> string)
    requires VisitOk(acts, p, v, body)
    ensures Served(acts, Cursor(p.lastId), v.polls)
  {
  }

  /** The browser dispatches the first `n` of the events sent, and keeps the id of the last. */
  lemma SentArrives(acts: seq<LogAction>, p: Parser, v: Visit, body: Event -> string) returns (n: nat)
    requires VisitOk(acts, p, v, body) && forall e :: ObjectText(body(e))
    ensures n <= |Sent(v.polls)|
    ensures
      var q, es := AfterVisit(p, v), Sent(v.polls)[..n];
      q.events == p.events + Pairs(es, body) && NamesLast(p.lastId, es, q.lastId)
  {
    hide IsPage, Exec, ObjectText, PollOk, Cursor, Feed, Print, Increasing;
    hide Served, Effects, Messages, Frames, Between, CursorAfter, FindBlank, FeedAll, WellFormed, ToDecimal;
    var frames, t := Frames(v.polls, body), Concat(v.chunks);
    var k := Complete(frames, t);
    var o := Opened(p);
    FramesWellFormed(acts, Cursor(p.lastId), v.polls, body);
    ChunkIndependence(o, v.chunks);
    CutStream(o, frames, t);
    EffectsAreMessages(o, frames[..k]);
    LastIdKept(o, frames[..k]);
    MessagesPrefix(frames, k);
    FramesCarrySent(v.polls, body);
    n := |Messages(frames[..k])|;
    assert Messages(frames[..k]) == Pairs(Sent(v.polls)[..n], body);
  }

  predicate VisitsOk(acts: seq<LogAction>, p: Parser, visits: seq<Visit>, body: Event -> string)
    decreases |visits|
  {
    visits == [] || (VisitOk(acts, p, visits[0], body) && VisitsOk(acts, AfterVisit(p, visits[0]), visits[1..], body))
  }

  function AfterVisits(p: Parser, visits: seq<Visit>): (q: Parser)
    decreases |visits|
  {
    if visits == [] then p else AfterVisits(AfterVisit(p, visits[0]), visits[1..])
  }

  /**
  Exactly once, end to end: for every schedule of writers, and over any number of connections cut at any byte, the
  browser dispatches exactly the committed events between its first and its last cursor, in strictly increasing order.
  */
  lemma {:induction false} ExactlyOnce(acts: seq<LogAction>, p: Parser, visits: seq<Visit>, body: Event -> string)
    requires VisitsOk(acts, p, visits, body) && forall e :: ObjectText(body(e))
    ensures
      var q := AfterVisits(p, visits);
      var got := Between(Exec(Init(), acts).committed, Cursor(p.lastId), Cursor(q.lastId));
      && Cursor(p.lastId) <= Cursor(q.lastId)
      && q.events == p.events + Pairs(got, body)
      && Increasing(got)
      && NamesLast(p.lastId, got, q.lastId)
    decreases |visits|
  {
    hide VisitOk, AfterVisit, Exec, ObjectText, Cursor, NamesLast, Between, UpTo;
    var final := Exec(Init(), acts).committed;
    LogGrows(acts, 0);
    if visits == [] {
      BetweenIsSlice(final, Cursor(p.lastId), Cursor(p.lastId));
      assert NamesLast(p.lastId, [], p.lastId) by { SameName(p.lastId); }
    } else {
      var m := AfterVisit(p, visits[0]);
      OneConnection(acts, p, visits[0], body);
      ExactlyOnce(acts, m, visits[1..], body);
      var q := AfterVisits(p, visits);
      BetweenJoins(final, Cursor(p.lastId), Cursor(m.lastId), Cursor(q.lastId));
      BetweenIsSlice(final, Cursor(p.lastId), Cursor(q.lastId));
      NamesLastJoins(p.lastId, Between(final, Cursor(p.lastId), Cursor(m.lastId)), m.lastId,
                     Between(final, Cursor(m.lastId), Cursor(q.lastId)), q.lastId);
    }
  }

  /**
  A browser that holds no id yet gets everything: over any number of connections it dispatches the committed events
  from the very first one on, none left out, and the id it holds then is that of the last one.
  */
  lemma FirstVisitGetsAll(acts: seq<LogAction>, p: Parser, visits: seq<Visit>, body: Event -> string)
    requires p.lastId == "" && VisitsOk(acts, p, visits, body) && forall e :: ObjectText(body(e))
    ensures
      var q, log := AfterVisits(p, visits), Exec(Init(), acts).committed;
      exists n: nat :: n <= |log| && q.events == p.events + Pairs(log[..n], body) && NamesLast("", log[..n], q.lastId)
  {
    hide VisitsOk, AfterVisits, Exec, ObjectText, ParseCursor;
    ExactlyOnce(acts, p, visits, body);
    var q, log := AfterVisits(p, visits), Exec(Init(), acts).committed;
    CursorStarts(0, "", "", "");
    LogGrows(acts, 0);
    NumbersArePositive(acts);
    BetweenIsSlice(log, 0, Cursor(q.lastId));
    CutIsUpTo(log, 0, 0);
    var n := UpTo(log, Cursor(q.lastId));
    assert Between(log, 0, Cursor(q.lastId)) == log[..n];
  }
}
