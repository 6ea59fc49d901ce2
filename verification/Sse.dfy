/** Text functions of the two languages the event stream goes through. */
module Text {
  import opened Types

  /** White space removed by `trim` in ECMAScript. */
  predicate JsSpace(c: char) {
    || c in "\t\n\r \U{000B}\U{000C}\U{00A0}\U{1680}\U{2028}\U{2029}\U{202F}\U{205F}\U{3000}\U{FEFF}"
    || '\U{2000}' <= c <= '\U{200A}'
  }

  /** White space removed by `strip` in Python. */
  predicate PySpace(c: char) {
    || c in "\t\n\r \U{000B}\U{000C}\U{001C}\U{001D}\U{001E}\U{001F}\U{0085}\U{00A0}\U{1680}"
    || c in "\U{2028}\U{2029}\U{202F}\U{205F}\U{3000}"
    || '\U{2000}' <= c <= '\U{200A}'
  }

  function TrimStart(s: string, space: char -> bool): (t: string) {
    if s != "" && space(s[0]) then TrimStart(s[1..], space) else s
  }

  function TrimEnd(s: string, space: char -> bool): (t: string) {
    if s != "" && space(s[|s| - 1]) then TrimEnd(s[..|s| - 1], space) else s
  }

  function Trim(s: string, space: char -> bool): (t: string) {
    TrimEnd(TrimStart(s, space), space)
  }

  predicate OccursAt(s: string, sub: string, i: nat) {
    i + |sub| <= |s| && s[i..i + |sub|] == sub
  }

  predicate Contains(s: string, sub: string) {
    exists i :: 0 <= i <= |s| && OccursAt(s, sub, i)
  }

  /** indexOf of a blank line, that is of two line feeds in a row. */
  function FindBlank(s: string): (i: Option<nat>)
    ensures i.Some? ==> i.value + 2 <= |s| && s[i.value] == '\n' && s[i.value + 1] == '\n'
    ensures forall k | 0 <= k && k + 1 < |s| && s[k] == '\n' && s[k + 1] == '\n' :: i.Some? && i.value <= k
  {
    if |s| < 2 then None
    else if s[0] == '\n' && s[1] == '\n' then Some(0)
    else
      var r := FindBlank(s[1..]);
      assert forall k | 1 <= k && k + 1 < |s| :: s[k] == s[1..][k - 1] && s[k + 1] == s[1..][k];
      if r.None? then None else Some(r.value + 1)
  }

  /** split('\n') */
  function SplitLines(s: string): (lines: seq<string>)
    ensures |lines| > 0
  {
    if s == "" then [""]
    else if s[0] == '\n' then [""] + SplitLines(s[1..])
    else
      var rest := SplitLines(s[1..]);
      [[s[0]] + rest[0]] + rest[1..]
  }

  predicate IsDigit(c: char) {
    '0' <= c <= '9'
  }

  predicate AllDigits(s: string) {
    |s| > 0 && forall i | 0 <= i < |s| :: IsDigit(s[i])
  }

  function ToDecimal(n: nat): (s: string)
    ensures AllDigits(s)
  {
    if n < 10 then ['0' + n as char] else ToDecimal(n / 10) + ['0' + (n % 10) as char]
  }

  function DigitValue(c: char): (d: nat)
    requires IsDigit(c)
  {
    (c - '0') as nat
  }

  function FromDecimal(s: string): (n: nat)
    requires forall i | 0 <= i < |s| :: IsDigit(s[i])
  {
    if s == "" then 0 else 10 * FromDecimal(s[..|s| - 1]) + DigitValue(s[|s| - 1])
  }

  lemma {:induction false} DecimalRoundTrip(n: nat)
    ensures FromDecimal(ToDecimal(n)) == n
  {
    var s := ToDecimal(n);
    if n < 10 {
      assert s[..0] == "";
    } else {
      DecimalRoundTrip(n / 10);
      assert s[..|s| - 1] == ToDecimal(n / 10);
    }
  }

  /** The length of the leading run of digits. */
  function DigitRun(s: string): (n: nat)
    ensures n <= |s|
    ensures forall i | 0 <= i < n :: IsDigit(s[i])
    ensures n < |s| ==> !IsDigit(s[n])
  {
    if s != "" && IsDigit(s[0]) then 1 + DigitRun(s[1..]) else 0
  }

  /** parseInt(s, 10) of a trimmed text; None is NaN. */
  function ParseInt(s: string): (n: Option<int>) {
    var negative := s != "" && s[0] == '-';
    var digits := if s != "" && s[0] in "+-" then s[1..] else s;
    var k := DigitRun(digits);
    if k == 0 then None
    else
      var v: int := FromDecimal(digits[..k]);
      Some(if negative then -v else v)
  }

  /** What lies between `i` and `j` is the text without the white space around it. */
  predicate Stripped(s: string, i: nat, j: nat, space: char -> bool) {
    && i <= j <= |s| && (forall k | 0 <= k < |s| && (k < i || j <= k) :: space(s[k]))
    && (i < j ==> !space(s[i]) && !space(s[j - 1]))
  }

  /** Trimming takes white space off both ends, and as much as there is. */
  lemma {:induction false} TrimIsMiddle(s: string, space: char -> bool)
    ensures exists i: nat, j: nat :: Stripped(s, i, j, space) && Trim(s, space) == s[i..j]
  {
    var i := StartOf(s, space);
    var t := s[i..];
    var j := EndOf(t, space);
    assert t[..j] == s[i..i + j];
    assert forall k | i + j <= k < |s| :: s[k] == t[k - i];
    assert Stripped(s, i, i + j, space);
  }

  lemma BlankMeans(s: string, space: char -> bool)
    ensures Trim(s, space) == "" <==> forall k | 0 <= k < |s| :: space(s[k])
  {
    TrimIsMiddle(s, space);
  }

  lemma {:induction false} StartOf(s: string, space: char -> bool) returns (i: nat)
    ensures i <= |s| && TrimStart(s, space) == s[i..] && forall k | 0 <= k < i :: space(s[k])
    ensures i < |s| ==> !space(s[i])
  {
    if s != "" && space(s[0]) {
      var n := StartOf(s[1..], space);
      i := n + 1;
      assert s[1..][n..] == s[i..] && forall k | 1 <= k < |s| :: s[k] == s[1..][k - 1];
    } else {
      i := 0;
    }
  }

  lemma {:induction false} EndOf(s: string, space: char -> bool) returns (j: nat)
    ensures j <= |s| && TrimEnd(s, space) == s[..j] && forall k | j <= k < |s| :: space(s[k])
    ensures j > 0 ==> !space(s[j - 1])
  {
    if s != "" && space(s[|s| - 1]) {
      j := EndOf(s[..|s| - 1], space);
      assert s[..|s| - 1][..j] == s[..j] && forall k | 0 <= k < |s| - 1 :: s[k] == s[..|s| - 1][k];
    } else {
      j := |s|;
    }
  }

  lemma TrimKeeps(s: string, space: char -> bool)
    requires s != "" && !space(s[0]) && !space(s[|s| - 1])
    ensures Trim(s, space) == s && TrimStart(s, space) == s
  {
  }

  /** A leading blank is all that trimming takes off a text that has none at its ends. */
  lemma TrimOneBlank(s: string, space: char -> bool)
    requires s != "" && !space(s[0]) && space(' ')
    ensures TrimStart(" " + s, space) == s
    ensures !space(s[|s| - 1]) ==> Trim(" " + s, space) == s
  {
    assert (" " + s)[1..] == s;
  }

  lemma {:induction false} OneLine(s: string)
    requires '\n' !in s
    ensures SplitLines(s) == [s]
  {
    if s != "" {
      OneLine(s[1..]);
      assert [s[0]] + s[1..] == s;
    }
  }

  lemma {:induction false} TwoLines(a: string, b: string)
    requires '\n' !in a && '\n' !in b
    ensures SplitLines(a + "\n" + b) == [a, b]
  {
    var s := a + "\n" + b;
    if a == "" {
      assert s[1..] == b;
      OneLine(b);
    } else {
      assert s[1..] == a[1..] + "\n" + b;
      TwoLines(a[1..], b);
      assert [a[0]] + a[1..] == a;
    }
  }

  lemma NoData(s: string)
    requires 'd' !in s
    ensures !Contains(s, "data:")
  {
    forall i | 0 <= i <= |s| ensures !OccursAt(s, "data:", i) {
      if i + 5 <= |s| { assert s[i..i + 5][0] == s[i] != 'd'; }
    }
  }
}

/** The wire format of the event stream and the incremental parser of the browser. */
module SseFrames {
  import opened Types
  import opened Text

  datatype Frame = Retry | Keepalive(at: string) | Message(id: nat, data: string)

  /** The characters of an ISO 8601 timestamp. */
  predicate IsoText(s: string) {
    forall i | 0 <= i < |s| :: IsDigit(s[i]) || s[i] in "-:.+TZ"
  }

  /** A JSON object on one line. */
  predicate ObjectText(s: string) {
    s != "" && s[0] == '{' && '\n' !in s
  }

  predicate WellFormed(f: Frame) {
    match f
    case Retry => true
    case Keepalive(at) => IsoText(at)
    case Message(_, data) => ObjectText(data)
  }

  /** A frame as the server writes it, without the blank line that ends it. */
  function Body(f: Frame): (s: string) {
    match f
    case Retry => "retry: 3000"
    case Keepalive(at) => ": keepalive " + at
    case Message(id, data) => ("id: " + ToDecimal(id)) + "\n" + ("data: " + data)
  }

  function Print(frames: seq<Frame>): (s: string) {
    if frames == [] then "" else Body(frames[0]) + "\n\n" + Print(frames[1..])
  }

  /** The parser of one connection; `lastId` and `events` outlive it.  An event is its data and the id sent with it. */
  datatype Parser = Parser(
    buf: string, curId: string, curData: string, lastId: string, retryMs: int, events: seq<(string, string)>)

  function Starts(line: string, field: string): (b: bool) {
    field <= line
  }

  function ApplyLine(p: Parser, line: string): (p': Parser) {
    if Starts(line, "id:") then p.(curId := Trim(line[3..], JsSpace))
    else if Starts(line, "data:") then
      p.(curData := p.curData + (if p.curData != "" then "\n" else "") + TrimStart(line[5..], JsSpace))
    else if Starts(line, "retry:") then
      var v := ParseInt(Trim(line[6..], JsSpace));
      if v.Some? then p.(retryMs := if v.value > 1000 then v.value else 1000) else p
    else p
  }

  function ApplyLines(p: Parser, lines: seq<string>): (p': Parser) {
    if lines == [] then p else ApplyLine(ApplyLines(p, lines[..|lines| - 1]), lines[|lines| - 1])
  }

  /** What happens when a frame is complete. */
  function Dispatch(p: Parser, frame: string): (p': Parser) {
    if Contains(frame, "data:") then
      p.(lastId := if p.curId != "" then p.curId else p.lastId,
         events := if p.curData != "" then p.events + [(p.curData, p.curId)] else p.events,
         curId := "", curData := "")
    else if Starts(Trim(frame, JsSpace), ":") then p.(curId := "", curData := "")
    else p
  }

  function TakeFrame(p: Parser, frame: string): (p': Parser) {
    Dispatch(ApplyLines(p, SplitLines(frame)), frame)
  }

  /** Takes every complete frame out of the buffer. */
  function Drain(p: Parser): (p': Parser)
    decreases |p.buf|
  {
    var i := FindBlank(p.buf);
    if i.None? then p
    else
      var rest := p.buf[i.value + 2..];
      Drain(TakeFrame(p, p.buf[..i.value]).(buf := rest))
  }

  function Feed(p: Parser, chunk: string): (p': Parser) {
    Drain(p.(buf := p.buf + chunk))
  }

  function FeedAll(p: Parser, chunks: seq<string>): (p': Parser) {
    if chunks == [] then p else Feed(FeedAll(p, chunks[..|chunks| - 1]), chunks[|chunks| - 1])
  }

  /** The parser at the start of a connection. */
  function Opened(p: Parser): (q: Parser) {
    p.(buf := "", curId := "", curData := "", retryMs := 1000)
  }

  function Concat(chunks: seq<string>): (s: string) {
    if chunks == [] then "" else Concat(chunks[..|chunks| - 1]) + chunks[|chunks| - 1]
  }

  // ---------------------------------------------------------------------------------------------
  // Lines and frames of any sender
  // ---------------------------------------------------------------------------------------------

  lemma StartsIs(field: string, rest: string)
    ensures Starts(field + rest, field) && (field + rest)[|field|..] == rest
  {
    assert (field + rest)[..|field|] == field;
  }

  /**
  An id is kept without the white space around it; data keeps the white space at its end, and a second data line of one
  frame goes on after a line feed; a comment changes nothing.
  */
  lemma TextFieldsMean(p: Parser, rest: string)
    ensures ApplyLine(p, "id:" + rest) == p.(curId := Trim(rest, JsSpace))
    ensures p.curData == "" ==> ApplyLine(p, "data:" + rest) == p.(curData := TrimStart(rest, JsSpace))
    ensures p.curData != "" ==>
              ApplyLine(p, "data:" + rest) == p.(curData := p.curData + "\n" + TrimStart(rest, JsSpace))
    ensures ApplyLine(p, ":" + rest) == p
  {
    hide Trim, TrimStart, JsSpace, ParseInt;
    StartsIs("id:", rest);
    StartsIs("data:", rest);
    var id, data, comment := "id:" + rest, "data:" + rest, ":" + rest;
    assert id[0] == 'i' && data[0] == 'd' && comment[0] == ':';
    assert "" + TrimStart(rest, JsSpace) == TrimStart(rest, JsSpace);
  }

  /** The wait is a number of at least a second; what is no number is ignored. */
  lemma RetryFieldMeans(p: Parser, rest: string)
    ensures
      var v := ParseInt(Trim(rest, JsSpace));
      ApplyLine(p, "retry:" + rest) ==
        if v == None then p else p.(retryMs := if v.value < 1000 then 1000 else v.value)
  {
    hide Trim, TrimStart, JsSpace, ParseInt;
    StartsIs("retry:", rest);
    var line := "retry:" + rest;
    assert line[0] == 'r';
  }

  lemma NumbersMean(n: nat)
    ensures ParseInt(ToDecimal(n)) == Some(n)
    ensures ParseInt("-" + ToDecimal(n)) == Some(-(n as int))
  {
    var s := ToDecimal(n);
    assert IsDigit(s[0]);
    DecimalRoundTrip(n);
    AllRun(s);
    assert ("-" + s)[1..] == s && s[..|s|] == s;
  }

  lemma {:induction false} AllRun(s: string)
    requires forall i | 0 <= i < |s| :: IsDigit(s[i])
    ensures DigitRun(s) == |s|
  {
    if s != "" { AllRun(s[1..]); }
  }

  /**
  A frame that holds the data field ends an event: the id stays for the next connection if there is one, the event goes
  out if there is any data, and both are forgotten; so they are after a comment, and not after any other frame.
  */
  lemma FramesEnd(p: Parser, frame: string)
    ensures
      var q := Dispatch(p, frame);
      if Contains(frame, "data:") then
        && (p.curId == "" ==> q.lastId == p.lastId) && (p.curId != "" ==> q.lastId == p.curId)
        && (p.curData == "" ==> q.events == p.events)
        && (p.curData != "" ==> q.events == p.events + [(p.curData, p.curId)])
        && q.curId == "" && q.curData == "" && q.retryMs == p.retryMs && q.buf == p.buf
      else q == (if ":" <= Trim(frame, JsSpace) then p.(curId := "", curData := "") else p)
  {
    hide Trim, Contains;
  }

  // ---------------------------------------------------------------------------------------------
  // Chunk independence
  // ---------------------------------------------------------------------------------------------

  lemma {:induction false} LinesIgnoreBuffer(p: Parser, lines: seq<string>, b: string)
    ensures ApplyLines(p.(buf := b), lines) == ApplyLines(p, lines).(buf := b)
    ensures ApplyLines(p, lines).buf == p.buf
  {
    if lines != [] {
      LinesIgnoreBuffer(p, lines[..|lines| - 1], b);
    }
  }

  lemma FrameIgnoresBuffer(p: Parser, frame: string, b: string)
    ensures TakeFrame(p.(buf := b), frame) == TakeFrame(p, frame).(buf := b)
  {
    LinesIgnoreBuffer(p, SplitLines(frame), b);
  }

  lemma FindBlankStays(s: string, t: string)
    requires FindBlank(s).Some?
    ensures FindBlank(s + t) == FindBlank(s)
  {
    var i := FindBlank(s).value;
    assert (s + t)[i] == '\n' && (s + t)[i + 1] == '\n';
    var j := FindBlank(s + t).value;
    assert s[j] == (s + t)[j] && s[j + 1] == (s + t)[j + 1];
  }

  /** Draining early makes no difference. */
  lemma {:induction false} DrainEarly(p: Parser, t: string)
    ensures Drain(p.(buf := p.buf + t)) == Feed(Drain(p), t)
    decreases |p.buf|
  {
    var i := FindBlank(p.buf);
    if i.Some? {
      FindBlankStays(p.buf, t);
      var frame, rest := p.buf[..i.value], p.buf[i.value + 2..];
      var q := p.(buf := p.buf + t);
      assert q.buf[..i.value] == frame && q.buf[i.value + 2..] == rest + t;
      FrameIgnoresBuffer(p, frame, q.buf);
      var p1 := TakeFrame(p, frame).(buf := rest);
      DrainEarly(p1, t);
      assert TakeFrame(q, frame).(buf := rest + t) == p1.(buf := p1.buf + t);
    }
  }

  lemma FeedNothing(p: Parser)
    requires FindBlank(p.buf).None?
    ensures Feed(p, "") == p
  {
    assert p.buf + "" == p.buf;
  }

  /** Feeding a stream chunk by chunk, cut anywhere, ends in the same state as feeding it whole. */
  lemma {:induction false} ChunkIndependence(p: Parser, chunks: seq<string>)
    requires FindBlank(p.buf).None?
    ensures FeedAll(p, chunks) == Feed(p, Concat(chunks))
  {
    hide Drain;
    if chunks == [] {
      FeedNothing(p);
    } else {
      var before, last := chunks[..|chunks| - 1], chunks[|chunks| - 1];
      ChunkIndependence(p, before);
      var q := p.(buf := p.buf + Concat(before));
      DrainEarly(q, last);
      assert q.buf + last == p.buf + Concat(chunks);
    }
  }

  // ---------------------------------------------------------------------------------------------
  // Round trip
  // ---------------------------------------------------------------------------------------------

  /** Between two frames nothing is pending. */
  predicate Fresh(p: Parser) {
    p.curId == "" && p.curData == ""
  }

  /** The effect of one frame on a parser with nothing pending. */
  function Effect(p: Parser, f: Frame): (p': Parser) {
    match f
    case Retry => p.(retryMs := 3000)
    case Keepalive(_) => p
    case Message(id, data) => p.(lastId := ToDecimal(id), events := p.events + [(data, ToDecimal(id))])
  }

  lemma ApplyOne(p: Parser, line: string)
    ensures ApplyLines(p, [line]) == ApplyLine(p, line)
  {
    var none: seq<string> := [];
    assert [line][..0] == none;
  }

  lemma ApplyTwo(p: Parser, l1: string, l2: string)
    ensures ApplyLines(p, [l1, l2]) == ApplyLine(ApplyLine(p, l1), l2)
  {
    assert [l1, l2][..1] == [l1];
    ApplyOne(p, l1);
  }

  lemma RetryLine(p: Parser)
    ensures ApplyLine(p, "retry: 3000") == p.(retryMs := 3000)
  {
    hide Trim, TrimStart, ParseInt;
    var line := "retry: 3000";
    assert line[0] == 'r';
    assert !Starts(line, "id:") && !Starts(line, "data:") && Starts(line, "retry:");
    assert line[6..] == " 3000" == " " + "3000";
    TrimOneBlank("3000", JsSpace);
    assert Trim(line[6..], JsSpace) == "3000";
    ThreeThousand();
  }

  lemma TakeRetry(p: Parser)
    requires Fresh(p)
    ensures TakeFrame(p, Body(Retry)) == Effect(p, Retry)
  {
    hide Trim, ApplyLine, SplitLines, ApplyLines, Contains;
    var line := "retry: 3000";
    OneLine(line);
    NoData(line);
    ApplyOne(p, line);
    RetryLine(p);
  }

  lemma ThreeThousand()
    ensures ParseInt("3000") == Some(3000)
  {
    var s := "3000";
    assert DigitRun(s) == 4 && s[..4] == s;
    assert s[..3] == "300" && s[..3][..2] == "30" && s[..3][..2][..1] == "3" && s[..3][..2][..1][..0] == "";
    assert FromDecimal("3") == 3 && FromDecimal("30") == 30 && FromDecimal("300") == 300;
  }

  lemma TakeKeepalive(p: Parser, at: string)
    requires Fresh(p) && IsoText(at)
    ensures TakeFrame(p, Body(Keepalive(at))) == p
  {
    var line := ": keepalive " + at;
    forall i | 0 <= i < |line| ensures line[i] != 'd' && line[i] != '\n' {
      if i >= 12 { assert line[i] == at[i - 12]; }
    }
    OneLine(line);
    NoData(line);
    ApplyOne(p, line);
    assert line[0] == ':';
    assert !Starts(line, "id:") && !Starts(line, "data:") && !Starts(line, "retry:");
  }

  lemma IdLine(p: Parser, id: nat)
    ensures ApplyLine(p, "id: " + ToDecimal(id)) == p.(curId := ToDecimal(id))
  {
    hide Trim, TrimStart;
    var n := ToDecimal(id);
    assert ("id: " + n)[3..] == " " + n && IsDigit(n[0]) && IsDigit(n[|n| - 1]);
    TrimOneBlank(n, JsSpace);
  }

  lemma DataLine(p: Parser, data: string)
    requires p.curData == "" && ObjectText(data)
    ensures ApplyLine(p, "data: " + data) == p.(curData := data)
  {
    hide Trim, TrimStart;
    var line := "data: " + data;
    assert line[0] == 'd' && line[5..] == " " + data;
    TrimOneBlank(data, JsSpace);
    assert "" + "" + data == data;
  }

  lemma TakeMessage(p: Parser, id: nat, data: string)
    requires Fresh(p) && ObjectText(data)
    ensures TakeFrame(p, Body(Message(id, data))) == Effect(p, Message(id, data))
  {
    hide Trim, ApplyLine, SplitLines, ApplyLines, ToDecimal;
    var n := ToDecimal(id);
    var l1, l2 := "id: " + n, "data: " + data;
    var frame := Body(Message(id, data));
    assert '\n' !in l1 by { assert forall i | 0 <= i < |n| :: IsDigit(n[i]); }
    TwoLines(l1, l2);
    ApplyTwo(p, l1, l2);
    IdLine(p, id);
    DataLine(p.(curId := n), data);
    assert frame[|l1| + 1..|l1| + 6] == "data:";
    assert OccursAt(frame, "data:", |l1| + 1);
  }

  lemma TakeBody(p: Parser, f: Frame)
    requires Fresh(p) && WellFormed(f)
    ensures TakeFrame(p, Body(f)) == Effect(p, f) && Fresh(Effect(p, f))
  {
    match f
    case Retry => TakeRetry(p);
    case Keepalive(at) => TakeKeepalive(p, at);
    case Message(id, data) => TakeMessage(p, id, data);
  }

  lemma BodyEnds(f: Frame, rest: string)
    requires WellFormed(f)
    ensures FindBlank(Body(f) + "\n\n" + rest) == Some(|Body(f)|)
  {
    var b := Body(f);
    var s := b + "\n\n" + rest;
    assert s[|b|] == '\n' && s[|b| + 1] == '\n';
    forall k | 0 <= k < |b| ensures s[k] != '\n' || s[k + 1] != '\n' {
      assert s[k] == b[k];
      match f
      case Retry =>
      case Keepalive(at) => if k >= 12 { assert b[k] == at[k - 12]; }
      case Message(id, data) => MessageBreaks(id, data, k, s);
    }
  }

  /** A message body has one line feed, and `data:` follows it. */
  lemma MessageBreaks(id: nat, data: string, k: nat, s: string)
    requires ObjectText(data) && Body(Message(id, data)) <= s && k < |Body(Message(id, data))| < |s|
    ensures s[k] != '\n' || s[k + 1] != '\n'
  {
    var n, b := ToDecimal(id), Body(Message(id, data));
    assert s[k] == b[k];
    if k < 4 {
      assert b[k] == "id: "[k];
    } else if k < 4 + |n| {
      assert b[k] == n[k - 4] && IsDigit(n[k - 4]);
    } else if k == 4 + |n| {
      assert b[k + 1] == 'd' && s[k + 1] == b[k + 1];
    } else if k < 11 + |n| {
      assert b[k] == "data: "[k - 5 - |n|];
    } else {
      assert b[k] == data[k - 11 - |n|];
    }
  }

  function Effects(p: Parser, frames: seq<Frame>): (p': Parser)
    decreases |frames|
  {
    if frames == [] then p else Effects(Effect(p, frames[0]), frames[1..])
  }

  lemma DrainOne(p: Parser, f: Frame, rest: string)
    requires Fresh(p) && WellFormed(f) && p.buf == Body(f) + "\n\n" + rest
    ensures Drain(p) == Drain(Effect(p, f).(buf := rest))
  {
    hide FindBlank, TakeFrame, Body;
    var b := Body(f);
    BodyEnds(f, rest);
    assert p.buf[..|b|] == b && p.buf[|b| + 2..] == rest;
    TakeBody(p, f);
  }

  /** Parsing what the server printed has exactly the effect of the frames. */
  lemma {:induction false} RoundTrip(p: Parser, frames: seq<Frame>)
    requires Fresh(p) && p.buf == "" && forall i | 0 <= i < |frames| :: WellFormed(frames[i])
    ensures Feed(p, Print(frames)) == Effects(p, frames)
    ensures Fresh(Effects(p, frames)) && Effects(p, frames).buf == ""
    decreases |frames|
  {
    hide Body, WellFormed, FindBlank, TakeFrame;
    if frames == [] {
      NothingToDrain(p);
    } else {
      hide Drain;
      var f, rest := frames[0], Print(frames[1..]);
      var q := p.(buf := Print(frames));
      assert p.buf + Print(frames) == Print(frames);
      DrainOne(q, f, rest);
      RoundTrip(Effect(p, f), frames[1..]);
      assert Effect(q, f).(buf := rest) == Effect(p, f).(buf := Effect(p, f).buf + rest);
    }
  }

  lemma NothingToDrain(p: Parser)
    requires p.buf == ""
    ensures Feed(p, "") == p
  {
    assert p.buf + "" == p.buf;
  }

  /** The events of a frame sequence, as data and id. */
  function Messages(frames: seq<Frame>): (es: seq<(string, string)>) {
    if frames == [] then []
    else
      var f := frames[|frames| - 1];
      Messages(frames[..|frames| - 1]) + if f.Message? then [(f.data, ToDecimal(f.id))] else []
  }

  lemma MessagesAppend(frames: seq<Frame>, more: seq<Frame>)
    ensures Messages(frames + more) == Messages(frames) + Messages(more)
  {
    if more == [] {
      assert frames + more == frames;
    } else {
      var n := |more| - 1;
      assert (frames + more)[..|frames| + n] == frames + more[..n];
      MessagesAppend(frames, more[..n]);
    }
  }

  lemma {:induction false} EffectsAreMessages(p: Parser, frames: seq<Frame>)
    ensures Effects(p, frames).events == p.events + Messages(frames)
    decreases |frames|
  {
    if frames != [] {
      EffectsAreMessages(Effect(p, frames[0]), frames[1..]);
      assert frames == [frames[0]] + frames[1..];
      MessagesAppend([frames[0]], frames[1..]);
      var none: seq<Frame> := [];
      assert [frames[0]][..0] == none;
    }
  }

  /** However the stream is cut into chunks, the browser sees exactly the messages sent, in order. */
  lemma DispatchesWhatWasSent(p: Parser, frames: seq<Frame>, chunks: seq<string>)
    requires Fresh(p) && p.buf == "" && forall i | 0 <= i < |frames| :: WellFormed(frames[i])
    requires Concat(chunks) == Print(frames)
    ensures FeedAll(p, chunks).events == p.events + Messages(frames)
  {
    ChunkIndependence(p, chunks);
    RoundTrip(p, frames);
    EffectsAreMessages(p, frames);
  }
}
