/** Access logging off the request path (internal/gatewaysvc/reqlogger.go) and the multi-row
    INSERT each batch becomes (internal/store/logs.go). */
module RequestLog {
  import opened Options
  import opened Strings
  import opened SqlWords

  // ---- The batcher ----

  const MAX_BATCH := 4000

  function BufferOf(n: int): (size: nat)
    ensures (n > 0 ==> size == n) && (n <= 0 ==> size == 4096)
  {
    if n <= 0 then 4096 else n
  }

  function BatchOf(n: int): (size: nat)
    ensures (0 < n <= 4000 ==> size == n) && (n > 4000 ==> size == 4000) && (n <= 0 ==> size == 200)
  {
    if n <= 0 then 200 else if n > MAX_BATCH then MAX_BATCH else n
  }

  datatype Limits = Limits(capacity: nat, batchSize: nat)

  /** The channel, the flusher's batch, the batches handed to the store, the drop counter. */
  datatype State<R> = State(ch: seq<R>, batch: seq<R>, handed: seq<seq<R>>, dropped: nat)

  function Enqueued<R>(l: Limits, s: State<R>, r: R): State<R> {
    if |s.ch| < l.capacity then s.(ch := s.ch + [r]) else s.(dropped := s.dropped + 1)
  }

  function Flushed<R>(s: State<R>): State<R> {
    if s.batch == [] then s else s.(batch := [], handed := s.handed + [s.batch])
  }

  function Added<R>(l: Limits, s: State<R>, r: R): State<R> {
    var t := s.(batch := s.batch + [r]);
    if |t.batch| >= l.batchSize then Flushed(t) else t
  }

  function Received<R>(l: Limits, s: State<R>): State<R>
    requires s.ch != []
  {
    Added(l, s.(ch := s.ch[1..]), s.ch[0])
  }

  function Drained<R>(l: Limits, s: State<R>): State<R>
    decreases |s.ch|
  {
    if s.ch == [] then Flushed(s) else Drained(l, Received(l, s))
  }

  class RequestLogger<R> {
    const limits: Limits
    var ch: seq<R>
    var batch: seq<R>
    var handed: seq<seq<R>>
    var dropped: nat

    function Now(): State<R> reads this { State(ch, batch, handed, dropped) }

    constructor (bufferSize: int, batchSize: int)
      ensures limits == Limits(BufferOf(bufferSize), BatchOf(batchSize))
      ensures limits.capacity > 0 && 1 <= limits.batchSize <= MAX_BATCH && Now() == State([], [], [], 0)
    {
      var buffer, size := bufferSize, batchSize;
      if buffer <= 0 { buffer := 4096; }
      if size <= 0 { size := 200; }
      if size > 4000 { size := 4000; }
      limits := Limits(buffer, size);
      ch, batch, handed, dropped := [], [], [], 0;
    }

    /** Never blocks: a full channel drops the record and counts it. */
    method Enqueue(r: R)
      modifies this
      ensures Now() == Enqueued(limits, old(Now()), r)
    {
      if |ch| < limits.capacity {
        ch := ch + [r];
      } else {
        dropped := dropped + 1;
      }
    }

    /** A failed insert is logged and the batch is gone either way. */
    method Flush()
      modifies this
      ensures Now() == Flushed(old(Now()))
    {
      if |batch| == 0 { return; }
      handed := handed + [batch];
      batch := [];
    }

    method Add(r: R)
      modifies this
      ensures Now() == Added(limits, old(Now()), r)
    {
      batch := batch + [r];
      if |batch| >= limits.batchSize { Flush(); }
    }

    /** The loop after cancellation. */
    method Drain()
      modifies this
      ensures Now() == Drained(limits, old(Now())) && ch == [] && batch == []
    {
      while |ch| > 0
        invariant Drained(limits, Now()) == Drained(limits, old(Now()))
        decreases |ch|
      {
        var r := ch[0];
        ch := ch[1..];
        Add(r);
      }
      Flush();
    }
  }

  // ---- Every run of handlers and flusher ----

  datatype Mode = Running | Draining | Exited

  datatype Action<R> = Offer(r: R) | Take | Tick | Cancel | DrainStep

  /** The batcher with a record of what was offered and what the channel accepted. */
  datatype System<R> = System(s: State<R>, mode: Mode, offered: seq<R>, accepted: seq<R>)

  function Step<R>(l: Limits, y: System<R>, a: Action<R>): System<R> {
    match a
    case Offer(r) =>
      y.(s := Enqueued(l, y.s, r), offered := y.offered + [r],
         accepted := if |y.s.ch| < l.capacity then y.accepted + [r] else y.accepted)
    case Take => if y.mode.Running? && y.s.ch != [] then y.(s := Received(l, y.s)) else y
    case Tick => if y.mode.Running? then y.(s := Flushed(y.s)) else y
    case Cancel => if y.mode.Running? then y.(mode := Draining) else y
    case DrainStep =>
      if !y.mode.Draining? then y
      else if y.s.ch != [] then y.(s := Received(l, y.s))
      else y.(s := Flushed(y.s), mode := Exited)
  }

  function Run<R>(l: Limits, acts: seq<Action<R>>): System<R> {
    if acts == [] then System(State([], [], [], 0), Running, [], [])
    else Step(l, Run(l, acts[..|acts| - 1]), acts[|acts| - 1])
  }

  function Concat<R>(parts: seq<seq<R>>): seq<R> {
    if parts == [] then [] else Concat(parts[..|parts| - 1]) + parts[|parts| - 1]
  }

  lemma ConcatSnoc<R>(parts: seq<seq<R>>, p: seq<R>)
    ensures Concat(parts + [p]) == Concat(parts) + p
  {
    assert (parts + [p])[..|parts|] == parts;
  }

  /** `a` is `b` with some elements left out. */
  predicate Subsequence<R(==)>(a: seq<R>, b: seq<R>) {
    if a == [] then true
    else if b == [] then false
    else if a[|a| - 1] == b[|b| - 1] && Subsequence(a[..|a| - 1], b[..|b| - 1]) then true
    else Subsequence(a, b[..|b| - 1])
  }

  /** Everything accepted, in order: handed over, in the batch, in the channel. */
  function Held<R>(s: State<R>): seq<R> { Concat(s.handed) + s.batch + s.ch }

  predicate Sized<R>(l: Limits, s: State<R>) {
    && |s.ch| <= l.capacity && |s.batch| < l.batchSize
    && forall i | 0 <= i < |s.handed| :: 1 <= |s.handed[i]| <= l.batchSize
  }

  predicate Inv<R(==)>(l: Limits, y: System<R>) {
    && y.accepted == Held(y.s)
    && |y.offered| == |y.accepted| + y.s.dropped
    && Subsequence(y.accepted, y.offered)
    && Sized(l, y.s)
  }

  lemma FlushKeeps<R>(l: Limits, s: State<R>)
    requires |s.ch| <= l.capacity && |s.batch| <= l.batchSize && l.batchSize >= 1
    requires forall i | 0 <= i < |s.handed| :: 1 <= |s.handed[i]| <= l.batchSize
    ensures Held(Flushed(s)) == Held(s) && Sized(l, Flushed(s)) && Flushed(s).batch == [] && Flushed(s).ch == s.ch
    ensures Flushed(s).dropped == s.dropped
  {
    hide Concat, Held;
    FlushHolds(s);
  }

  lemma FlushHolds<R>(s: State<R>)
    ensures Held(Flushed(s)) == Held(s)
  {
    hide Concat;
    ConcatSnoc(s.handed, s.batch);
    assert Concat(s.handed) + s.batch + [] + s.ch == Concat(s.handed) + s.batch + s.ch;
  }

  lemma ReceiveKeeps<R>(l: Limits, s: State<R>)
    requires Sized(l, s) && l.batchSize >= 1 && s.ch != []
    ensures Held(Received(l, s)) == Held(s) && Sized(l, Received(l, s)) && Received(l, s).dropped == s.dropped
  {
    var t := s.(ch := s.ch[1..], batch := s.batch + [s.ch[0]]);
    assert s.batch + s.ch == t.batch + t.ch;
    assert Held(t) == Concat(s.handed) + (t.batch + t.ch);
    assert Held(s) == Concat(s.handed) + (s.batch + s.ch);
    FlushKeeps(l, t);
  }

  lemma SubsequenceSnoc<R>(a: seq<R>, b: seq<R>, r: R)
    requires Subsequence(a, b)
    ensures Subsequence(a + [r], b + [r]) && Subsequence(a, b + [r])
  {
    assert (a + [r])[..|a|] == a && (b + [r])[..|b|] == b;
  }

  lemma HoldsMore<R>(s: State<R>, r: R)
    ensures Held(s.(ch := s.ch + [r])) == Held(s) + [r]
    ensures Held(s.(dropped := s.dropped + 1)) == Held(s)
  {
    hide Concat;
    var before := Concat(s.handed) + s.batch;
    assert before + s.ch + [r] == before + (s.ch + [r]);
  }

  lemma OfferKeeps<R>(l: Limits, y: System<R>, r: R)
    requires Inv(l, y)
    ensures Inv(l, Step(l, y, Offer(r)))
  {
    hide Subsequence, Held;
    SubsequenceSnoc(y.accepted, y.offered, r);
    HoldsMore(y.s, r);
  }

  lemma StepKeeps<R>(l: Limits, y: System<R>, a: Action<R>)
    requires Inv(l, y) && l.batchSize >= 1
    ensures Inv(l, Step(l, y, a))
  {
    hide Subsequence, Concat, Held, Received, Flushed;
    if a.Offer? {
      OfferKeeps(l, y, a.r);
    } else {
      FlushKeeps(l, y.s);
      if y.s.ch != [] { ReceiveKeeps(l, y.s); }
    }
  }

  /** No record is lost, duplicated or reordered between the channel and the store, every record
      not accepted is counted as dropped, and every batch has 1 to batchSize records. */
  lemma {:induction false} AlwaysInv<R>(l: Limits, acts: seq<Action<R>>)
    requires l.batchSize >= 1
    ensures Inv(l, Run(l, acts))
  {
    if acts != [] {
      AlwaysInv(l, acts[..|acts| - 1]);
      StepKeeps(l, Run(l, acts[..|acts| - 1]), acts[|acts| - 1]);
    }
  }

  /** At the moment the flusher exits, everything accepted so far has been handed over. */
  lemma ExitHandsOver<R>(l: Limits, acts: seq<Action<R>>, a: Action<R>)
    requires l.batchSize >= 1 && !Run(l, acts).mode.Exited? && Step(l, Run(l, acts), a).mode.Exited?
    ensures var y := Step(l, Run(l, acts), a); y.s.ch == [] && y.s.batch == [] && Concat(y.s.handed) == y.accepted
  {
    AlwaysInv(l, acts);
    StepKeeps(l, Run(l, acts), a);
  }

  /** Draining with no further arrivals hands over everything in order. */
  lemma {:induction false} DrainHandsOver<R>(l: Limits, s: State<R>)
    requires Sized(l, s) && l.batchSize >= 1
    ensures Concat(Drained(l, s).handed) == Held(s) && Drained(l, s).ch == [] && Drained(l, s).batch == []
    ensures Drained(l, s).dropped == s.dropped && Sized(l, Drained(l, s))
    decreases |s.ch|
  {
    if s.ch == [] {
      FlushKeeps(l, s);
    } else {
      ReceiveKeeps(l, s);
      DrainHandsOver(l, Received(l, s));
    }
  }

  function Repeat<R>(l: Limits, y: System<R>, a: Action<R>, n: nat): System<R>
    decreases n
  {
    if n == 0 then y else Repeat(l, Step(l, y, a), a, n - 1)
  }

  lemma {:induction false} TakesAll<R>(l: Limits, y: System<R>)
    requires Inv(l, y) && l.batchSize >= 1 && y.mode.Running?
    ensures var z := Repeat(l, y, Take, |y.s.ch|);
      Inv(l, z) && z.s.ch == [] && z.accepted == y.accepted && z.mode.Running?
    decreases |y.s.ch|
  {
    hide Inv;
    if y.s.ch != [] {
      StepKeeps(l, y, Take);
      TakesAll(l, Step(l, y, Take));
    }
  }

  /** A running flusher catches up: once it has taken what is in the channel, the next tick hands over
      everything accepted so far. */
  lemma CatchesUp<R>(l: Limits, acts: seq<Action<R>>)
    requires l.batchSize >= 1 && Run(l, acts).mode.Running?
    ensures var y := Run(l, acts);
      var z := Step(l, Repeat(l, y, Take, |y.s.ch|), Tick);
      z.s.ch == [] && z.s.batch == [] && Concat(z.s.handed) == y.accepted && z.mode.Running?
  {
    AlwaysInv(l, acts);
    var y := Run(l, acts);
    TakesAll(l, y);
    var t := Repeat(l, y, Take, |y.s.ch|);
    StepKeeps(l, t, Tick);
  }

  lemma {:induction false} DrainsAll<R>(l: Limits, y: System<R>)
    requires Inv(l, y) && l.batchSize >= 1 && y.mode.Draining?
    ensures var z := Repeat(l, y, DrainStep, |y.s.ch| + 1);
      Inv(l, z) && z.s.ch == [] && z.s.batch == [] && z.accepted == y.accepted && z.mode.Exited?
    decreases |y.s.ch|
  {
    hide Inv, Received, Flushed;
    StepKeeps(l, y, DrainStep);
    if y.s.ch == [] {
      FlushEmpties(y.s);
      assert Repeat(l, Step(l, y, DrainStep), DrainStep, 0) == Step(l, y, DrainStep);
    } else {
      ReceiveTakes(l, y.s);
      DrainsAll(l, Step(l, y, DrainStep));
    }
  }

  lemma FlushEmpties<R>(s: State<R>) ensures Flushed(s).batch == [] && Flushed(s).ch == s.ch {}

  lemma ReceiveTakes<R>(l: Limits, s: State<R>)
    requires s.ch != []
    ensures Received(l, s).ch == s.ch[1..]
  {
  }

  /** A cancelled flusher takes no further turn of its loop, and its drain hands over everything
      accepted so far and exits. */
  lemma ShutsDown<R>(l: Limits, acts: seq<Action<R>>)
    requires l.batchSize >= 1 && Run(l, acts).mode.Running?
    ensures var y := Step(l, Run(l, acts), Cancel);
      var z := Repeat(l, y, DrainStep, |y.s.ch| + 1);
      && Step(l, y, Take) == y == Step(l, y, Tick)
      && z.mode.Exited? && z.s.ch == [] && z.s.batch == [] && Concat(z.s.handed) == Run(l, acts).accepted
  {
    AlwaysInv(l, acts);
    StepKeeps(l, Run(l, acts), Cancel);
    DrainsAll(l, Step(l, Run(l, acts), Cancel));
  }

  // ---- itoa ----

  function Pow10(k: nat): nat { if k == 0 then 1 else 10 * Pow10(k - 1) }

  lemma Pow20()
    ensures Pow10(20) == 100_000_000_000_000_000_000
  {
    assert Pow10(5) == 100_000;
    assert Pow10(10) == 10_000_000_000;
    assert Pow10(15) == 1_000_000_000_000_000;
  }

  lemma Pow0() ensures Pow10(0) == 1 {}

  lemma Pow10Next(i: nat, n: nat)
    requires 0 < n < Pow10(i)
    ensures i > 0 && n / 10 < Pow10(i - 1)
  {
  }

  lemma Zero()
    ensures Itoa(0) == "0"
  {
  }

  lemma NextDigit(n: nat, tail: string)
    ensures Itoa(n) + tail == if n < 10 then [Digit(n % 10)] + tail else Itoa(n / 10) + ([Digit(n % 10)] + tail)
  {
  }

  /** itoa on a 64-bit int: a 20-byte buffer filled from the back always suffices. A negative
      number gives the empty string. */
  method ItoaMethod(n0: int) returns (s: string)
    requires -0x8000_0000_0000_0000 <= n0 < 0x8000_0000_0000_0000
    ensures n0 >= 0 ==> s == Itoa(n0)
    ensures n0 < 0 ==> s == ""
  {
    hide Itoa, Digit, Pow10;
    if n0 == 0 { Zero(); return "0"; }
    var b := new char[20];
    var i := b.Length;
    var n := n0;
    Pow20();
    Pow0();
    assert b[20..] == "" && Itoa(if n0 > 0 then n0 else 0) + "" == Itoa(if n0 > 0 then n0 else 0);
    while n > 0
      invariant 0 <= i <= b.Length && (n0 < 0 ==> n == n0 && i == b.Length)
      invariant n0 > 0 ==> 0 <= n < Pow10(i) && (if n == 0 then Itoa(n0) == b[i..] else Itoa(n0) == Itoa(n) + b[i..])
    {
      ghost var tail := b[i..];
      Pow10Next(i, n);
      i := i - 1;
      b[i] := Digit(n % 10);
      assert b[i + 1..] == tail && b[i..] == [Digit(n % 10)] + tail;
      NextDigit(n, tail);
      n := n / 10;
    }
    return b[i..];
  }

  // ---- InsertRequestLogBatch ----

  type Value = string

  datatype Log = Log(requestID: Value, clientID: Value, apiDefinitionID: Value, clientLabel: Value, apiLabel: Value,
                     verb: Value, path: Value, statusCode: Value, errorCode: Value, latencyMS: Value, cached: Value,
                     operation: Value, sourceDBDurationMS: Value, ipAddress: Value)

  datatype Column = RequestID | ClientID | APIDefinitionID | ClientLabel | APILabel | Verb | Path | StatusCode
                  | ErrorCode | LatencyMS | Cached | Operation | SourceDBDurationMS | IPAddress

  /** The column list of the statement. */
  const COLUMNS := [RequestID, ClientID, APIDefinitionID, ClientLabel, APILabel, Verb, Path, StatusCode,
                    ErrorCode, LatencyMS, Cached, Operation, SourceDBDurationMS, IPAddress]

  const COLS := 14

  function Field(r: Log, c: Column): Value {
    match c
    case RequestID => r.requestID
    case ClientID => r.clientID
    case APIDefinitionID => r.apiDefinitionID
    case ClientLabel => r.clientLabel
    case APILabel => r.apiLabel
    case Verb => r.verb
    case Path => r.path
    case StatusCode => r.statusCode
    case ErrorCode => r.errorCode
    case LatencyMS => r.latencyMS
    case Cached => r.cached
    case Operation => r.operation
    case SourceDBDurationMS => r.sourceDBDurationMS
    case IPAddress => r.ipAddress
  }

  function ColumnName(c: Column): string {
    match c
    case RequestID => "request_id"
    case ClientID => "client_id"
    case APIDefinitionID => "api_definition_id"
    case ClientLabel => "client_label"
    case APILabel => "api_label"
    case Verb => "method"
    case Path => "path"
    case StatusCode => "status_code"
    case ErrorCode => "error_code"
    case LatencyMS => "latency_ms"
    case Cached => "cached"
    case Operation => "operation"
    case SourceDBDurationMS => "source_db_duration_ms"
    case IPAddress => "ip_address"
  }

  function ColumnNames(): seq<string> { seq(COLS, i requires 0 <= i < COLS => ColumnName(COLUMNS[i])) }

  /** The statement up to VALUES, the line breaks of its column list written as spaces. */
  function HeadText(): string {
    "INSERT INTO api_request_logs (" + Join(ColumnNames(), ", ") + ") VALUES "
  }

  function Cell(k: nat): string { "$" + Itoa(k) }

  /** The first `j` placeholders of row `i`. */
  function CellsText(i: nat, j: nat): string {
    if j == 0 then "" else CellsText(i, j - 1) + (if j > 1 then "," else "") + Cell(i * COLS + j)
  }

  function RowsText(n: nat): string {
    if n == 0 then "" else RowsText(n - 1) + (if n > 1 then "," else "") + "(" + CellsText(n - 1, COLS) + ")"
  }

  /** The values, row by row, each row in the order of the column list. */
  function ArgsOf(rs: seq<Log>): seq<Value> {
    seq(COLS * |rs|, k requires 0 <= k < COLS * |rs| => Field(rs[k / COLS], COLUMNS[k % COLS]))
  }

  lemma ArgsNext(rs: seq<Log>, i: nat)
    requires i < |rs|
    ensures var r := rs[i];
      ArgsOf(rs[..i + 1]) == ArgsOf(rs[..i]) +
        [r.requestID, r.clientID, r.apiDefinitionID, r.clientLabel, r.apiLabel, r.verb, r.path,
         r.statusCode, r.errorCode, r.latencyMS, r.cached, r.operation, r.sourceDBDurationMS, r.ipAddress]
  {
    var r := rs[i];
    var row := [r.requestID, r.clientID, r.apiDefinitionID, r.clientLabel, r.apiLabel, r.verb, r.path,
                r.statusCode, r.errorCode, r.latencyMS, r.cached, r.operation, r.sourceDBDurationMS, r.ipAddress];
    forall k | 0 <= k < COLS * (i + 1)
      ensures ArgsOf(rs[..i + 1])[k] == (ArgsOf(rs[..i]) + row)[k]
    {
      if k >= COLS * i {
        var j := k - COLS * i;
        assert k / COLS == i && k % COLS == j;
        assert row[j] == Field(r, COLUMNS[j]);
      } else {
        assert k / COLS < i;
      }
    }
  }

  /** The inner loop: the placeholders of row `i`. */
  method WriteCells(b: string, i: nat) returns (text: string)
    requires (i + 1) * COLS < 0x8000_0000_0000_0000
    ensures text == b + CellsText(i, COLS)
  {
    hide Itoa;
    text := b;
    assert text == b + "";
    for j := 0 to COLS
      invariant text == b + CellsText(i, j)
    {
      ghost var cells := CellsText(i, j);
      if j > 0 { text := text + ","; }
      text := text + "$";
      var digits := ItoaMethod(i * COLS + j + 1);
      text := text + digits;
      Regroup(b, cells, if j > 0 then "," else "", digits);
    }
  }

  lemma Regroup(b: string, cells: string, comma: string, digits: string)
    ensures b + cells + comma + "$" + digits == b + (cells + comma + ("$" + digits))
    ensures b + cells + "$" + digits == b + (cells + "" + ("$" + digits))
  {
  }

  lemma RowAppends(head: string, rows: string, comma: string, cells: string)
    ensures head + rows + comma + "(" + cells + ")" == head + (rows + comma + "(" + cells + ")")
    ensures head + rows + "(" + cells + ")" == head + (rows + "" + "(" + cells + ")")
  {
  }

  /** The statement and its arguments; an empty batch sends nothing. */
  method InsertBatch(rs: seq<Log>) returns (sent: bool, sql: string, args: seq<Value>)
    requires |rs| * COLS < 0x8000_0000_0000_0000
    ensures sent <==> rs != []
    ensures sent ==> sql == HeadText() + RowsText(|rs|) && args == ArgsOf(rs)
  {
    hide ArgsOf, CellsText, HeadText;
    sql, args := "", [];
    if |rs| == 0 { return false, sql, args; }
    NoArgs(rs);
    var head := HeadText();
    sql := head;
    assert sql == head + RowsText(0);
    for i := 0 to |rs|
      invariant sql == head + RowsText(i) && args == ArgsOf(rs[..i])
    {
      var r := rs[i];
      if i > 0 { sql := sql + ","; }
      sql := sql + "(";
      sql := WriteCells(sql, i);
      sql := sql + ")";
      RowAppends(head, RowsText(i), if i > 0 then "," else "", CellsText(i, COLS));
      args := args + [r.requestID, r.clientID, r.apiDefinitionID, r.clientLabel, r.apiLabel, r.verb, r.path,
                      r.statusCode, r.errorCode, r.latencyMS, r.cached, r.operation, r.sourceDBDurationMS, r.ipAddress];
      ArgsNext(rs, i);
    }
    assert rs[..|rs|] == rs;
    return true, sql, args;
  }

  lemma NoArgs(rs: seq<Log>)
    ensures ArgsOf(rs[..0]) == []
  {
  }

  // ---- Reading the placeholders back ----

  predicate IsDigit(c: char) { '0' <= c <= '9' }

  function DigitRun(s: string): (n: nat)
    ensures n <= |s| && AllDigits(s[..n]) && (n < |s| ==> !IsDigit(s[n]))
  {
    if s == [] || !IsDigit(s[0]) then 0 else 1 + DigitRun(s[1..])
  }

  /** The numbers after each `$`, left to right. */
  function Numbers(s: string): seq<nat>
    decreases |s|
  {
    if s == [] then []
    else if s[0] != '$' then Numbers(s[1..])
    else
      var d := DigitRun(s[1..]);
      [NumberOf(s[1..][..d])] + Numbers(s[1..][d..])
  }

  lemma {:induction false} DigitRunStops(s: string, t: string)
    requires t == [] || !IsDigit(t[0])
    ensures DigitRun(s + t) == DigitRun(s)
  {
    if s == [] {
      assert s + t == t;
    } else {
      assert (s + t)[0] == s[0] && (s + t)[1..] == s[1..] + t;
      DigitRunStops(s[1..], t);
    }
  }

  lemma {:induction false} NumbersConcat(s: string, t: string)
    requires t == [] || !IsDigit(t[0])
    ensures Numbers(s + t) == Numbers(s) + Numbers(t)
    decreases |s|
  {
    hide Numbers, NumberOf, DigitRun;
    if s == [] {
      NumbersOfNone();
      assert s + t == t;
    } else {
      var rest := s[1..];
      ConcatTail(s, t);
      NumbersNext(s);
      NumbersNext(s + t);
      if s[0] != '$' {
        NumbersConcat(rest, t);
      } else {
        DigitRunStops(rest, t);
        var d := DigitRun(rest);
        ConcatCut(rest, t, d);
        NumbersConcat(rest[d..], t);
        Grouped([NumberOf(rest[..d])], Numbers(rest[d..]), Numbers(t));
      }
    }
  }

  lemma ConcatTail(s: string, t: string)
    requires s != []
    ensures (s + t)[0] == s[0] && (s + t)[1..] == s[1..] + t
  {
  }

  lemma ConcatCut(s: string, t: string, d: nat)
    requires d <= |s|
    ensures (s + t)[..d] == s[..d] && (s + t)[d..] == s[d..] + t
  {
  }

  lemma Grouped(a: seq<nat>, b: seq<nat>, c: seq<nat>) ensures a + (b + c) == a + b + c {}

  lemma NumbersNext(s: string)
    requires s != []
    ensures var d := DigitRun(s[1..]);
      Numbers(s) == if s[0] != '$' then Numbers(s[1..]) else [NumberOf(s[1..][..d])] + Numbers(s[1..][d..])
  {
    hide NumberOf, DigitRun;
  }

  lemma {:induction false} AllDigitRun(s: string)
    requires AllDigits(s)
    ensures DigitRun(s) == |s|
  {
    if s != [] { AllDigitRun(s[1..]); }
  }

  lemma CellNumber(k: nat)
    ensures Numbers(Cell(k)) == [k] && !IsDigit(Cell(k)[0])
  {
    var c := Cell(k);
    assert c[0] == '$' && c[1..] == Itoa(k);
    AllDigitRun(Itoa(k));
    ItoaRoundTrip(k);
    assert Itoa(k)[..|Itoa(k)|] == Itoa(k) && Itoa(k)[|Itoa(k)|..] == [];
  }

  /** from + 1, ..., from + n */
  function Span(from: nat, n: nat): seq<nat> { seq(n, i => from + i + 1) }

  lemma PlainNumbers(c: char)
    requires c != '$'
    ensures Numbers([c]) == []
  {
    assert [c][1..] == [];
  }

  lemma {:induction false} CellsNumbers(i: nat, j: nat)
    ensures Numbers(CellsText(i, j)) == Span(i * COLS, j) && (j > 0 ==> !IsDigit(CellsText(i, j)[0]))
  {
    hide Numbers, Itoa;
    if j == 0 {
      assert Numbers("") == [] by { NumbersOfNone(); }
    } else {
      var front, k := CellsText(i, j - 1), i * COLS + j;
      CellsNumbers(i, j - 1);
      CellNumber(k);
      assert Span(i * COLS, j) == Span(i * COLS, j - 1) + [k];
      if j > 1 {
        PlainNumbers(',');
        NumbersConcat(front, ",");
        NumbersConcat(front + ",", Cell(k));
        assert Numbers(front) + [] + [k] == Numbers(front) + [k];
        assert front + "," + Cell(k) == CellsText(i, j);
      } else {
        assert CellsText(i, 1) == Cell(k);
      }
    }
  }

  lemma NumbersOfNone()
    ensures Numbers("") == []
  {
  }

  function Comma(n: nat): string { if n > 1 then "," else "" }

  lemma RowNumbers(n: nat)
    requires n > 0
    ensures Numbers(Row(n)) == Span((n - 1) * COLS, COLS) && !IsDigit(Row(n)[0])
  {
    hide Numbers, CellsText;
    CellsNumbers(n - 1, COLS);
    var cells := CellsText(n - 1, COLS);
    PlainNumbers(',');
    PlainNumbers('(');
    NumbersOfNone();
    NumbersConcat(Comma(n), "(");
    NumbersConcat(Comma(n) + "(", cells);
    assert [] + [] + Numbers(cells) == Numbers(cells);
  }

  /** The placeholders of a batch of n rows are 1, 2, ..., 14n in order. */
  lemma {:induction false} PlaceholdersConsecutive(n: nat)
    ensures Numbers(RowsText(n)) == Span(0, COLS * n)
  {
    hide Numbers, CellsText, RowsText, Span;
    RowsNext(n);
    if n == 0 {
      NumbersOfNone();
      SpanConcat(0, 0);
    } else {
      PlaceholdersConsecutive(n - 1);
      RowNumbers(n);
      var front, row := RowsText(n - 1), Row(n);
      PlainNumbers(')');
      NumbersConcat(front, row);
      NumbersConcat(front + row, ")");
      SpanConcat(COLS * (n - 1), COLS);
    }
  }

  lemma SpanConcat(k: nat, m: nat)
    ensures Span(0, k) + Span(k, m) + [] == Span(0, k + m) && Span(0, 0) == []
  {
  }

  /** The n-th tuple up to its closing parenthesis. */
  function Row(n: nat): string
    requires n > 0
  {
    Comma(n) + "(" + CellsText(n - 1, COLS)
  }

  lemma RowsNext(n: nat)
    ensures RowsText(n) == if n == 0 then "" else RowsText(n - 1) + Row(n) + ")"
  {
    hide CellsText;
  }

  // ---- The tuples ----

  lemma {:induction false} SplitAppend(a: string, x: string, c: char)
    requires c !in x
    ensures var ps := Split(a, c); Split(a + x + [c], c) == ps[..|ps| - 1] + [ps[|ps| - 1] + x, ""]
    decreases |a|
  {
    hide Split, IndexOf;
    var i := IndexOf(a, c);
    SplitCut(a, c);
    if i == |a| {
      LoneSeparator(a + x, c);
      assert [a][..0] == [];
    } else {
      var rest := a[i + 1..];
      FirstSeparator(a[..i], rest + x + [c], c);
      Reassociate(a, i, x, c);
      SplitAppend(rest, x, c);
      SnocOf(a[..i], Split(rest, c), x);
    }
  }

  lemma SplitCut(a: string, c: char)
    ensures var i := IndexOf(a, c); Split(a, c) == if i == |a| then [a] else [a[..i]] + Split(a[i + 1..], c)
  {
    hide IndexOf;
  }

  lemma Reassociate(a: string, i: nat, x: string, c: char)
    requires i < |a| && a[i] == c
    ensures a + x + [c] == a[..i] + [c] + (a[i + 1..] + x + [c])
  {
  }

  lemma SnocOf(p: string, ps: seq<string>, x: string)
    requires ps != []
    ensures var all, n := [p] + ps, |ps| - 1;
      [p] + (ps[..n] + [ps[n] + x, ""]) == all[..|all| - 1] + [all[|all| - 1] + x, ""]
  {
  }

  lemma LoneSeparator(s: string, c: char)
    requires c !in s
    ensures Split(s + [c], c) == [s, ""]
  {
    FirstSeparator(s, "", c);
    assert s + [c] + "" == s + [c];
  }

  lemma FirstSeparator(s: string, t: string, c: char)
    requires c !in s
    ensures Split(s + [c] + t, c) == [s] + Split(t, c)
  {
    var all, i := s + [c] + t, IndexOf(s + [c] + t, c);
    assert all[|s|] == c && i <= |s|;
    assert i == |s| && all[..i] == s && all[i + 1..] == t;
  }

  lemma {:induction false} NoClosing(i: nat, j: nat)
    ensures ')' !in CellsText(i, j)
  {
    if j > 0 { NoClosing(i, j - 1); }
  }

  /** VALUES holds one parenthesised tuple per row: cut at each closing parenthesis there are n
      pieces, and piece i holds the placeholders 14i + 1 to 14i + 14. */
  lemma {:induction false} TuplesMatchRows(n: nat)
    ensures var ps := Split(RowsText(n), ')');
      |ps| == n + 1 && ps[n] == "" && forall i | 0 <= i < n :: Numbers(ps[i]) == Span(i * COLS, COLS)
  {
    hide Numbers, CellsText, Split, RowsText, Span, Row;
    RowsNext(n);
    if n == 0 {
      SplitNothing();
    } else {
      TuplesMatchRows(n - 1);
      RowCloses(n);
      SplitAppend(RowsText(n - 1), Row(n), ')');
      RowNumbers(n);
      assert "" + Row(n) == Row(n);
    }
  }

  lemma RowCloses(n: nat)
    requires n > 0
    ensures ')' !in Row(n)
  {
    hide CellsText;
    NoClosing(n - 1, COLS);
  }

  lemma SplitNothing()
    ensures Split("", ')') == [""]
  {
  }

  // ---- The column list ----

  /** The field that a column of the table is for. */
  function FieldNamed(r: Log, column: string): Option<Value> {
    match column
    case "request_id" => Some(r.requestID)
    case "client_id" => Some(r.clientID)
    case "api_definition_id" => Some(r.apiDefinitionID)
    case "client_label" => Some(r.clientLabel)
    case "api_label" => Some(r.apiLabel)
    case "method" => Some(r.verb)
    case "path" => Some(r.path)
    case "status_code" => Some(r.statusCode)
    case "error_code" => Some(r.errorCode)
    case "latency_ms" => Some(r.latencyMS)
    case "cached" => Some(r.cached)
    case "operation" => Some(r.operation)
    case "source_db_duration_ms" => Some(r.sourceDBDurationMS)
    case "ip_address" => Some(r.ipAddress)
    case _ => None
  }

  /** `name, name, ... )` */
  function ReadNames(ws: seq<string>): seq<string> {
    if |ws| < 2 then [] else if ws[1] == "," then [ws[0]] + ReadNames(ws[2..]) else [ws[0]]
  }

  /** The columns an INSERT statement lists. */
  function ColumnsOf(sql: string): seq<string> {
    var ws := Words(sql);
    if |ws| > 4 && ws[..2] == ["INSERT", "INTO"] && ws[3] == "(" then ReadNames(ws[4..]) else []
  }

  lemma {:induction false} NamesRead(names: seq<string>, more: seq<string>)
    requires names != [] && forall n | n in names :: OneWord(n)
    ensures ReadNames(Listed(names) + ([")"] + more)) == names
  {
    hide Words, OneWord, Listed;
    assert names[0] in names;
    ListedNames(names);
    if |names| == 1 {
      assert names == [names[0]];
      LastName(names[0], more);
    } else {
      assert forall n | n in names[1..] :: n in names;
      NamesRead(names[1..], more);
      NextName(names[0], Listed(names[1..]), [")"] + more);
      assert names == [names[0]] + names[1..];
    }
  }

  lemma ListedNames(names: seq<string>)
    requires names != [] && OneWord(names[0])
    ensures Listed(names) == if |names| == 1 then [names[0]] else [names[0]] + [","] + Listed(names[1..])
  {
    hide Words, OneWord;
    WordIs(names[0]);
  }

  lemma LastName(name: string, more: seq<string>)
    ensures ReadNames([name] + ([")"] + more)) == [name]
  {
    var ws := [name] + ([")"] + more);
    assert ws[0] == name && ws[1] == ")";
  }

  lemma NextName(name: string, list: seq<string>, more: seq<string>)
    ensures ReadNames([name] + [","] + list + more) == [name] + ReadNames(list + more)
  {
    var ws := [name] + [","] + list + more;
    assert ws[0] == name && ws[1] == "," && ws[2..] == list + more;
  }

  lemma ClientNames()
    ensures OneWord("request_id") && OneWord("client_id") && OneWord("api_definition_id") && OneWord("client_label")
  {
  }

  lemma CallNames()
    ensures OneWord("api_label") && OneWord("method") && OneWord("path") && OneWord("status_code")
    ensures OneWord("error_code") && OneWord("latency_ms")
  {
  }

  lemma OutcomeNames()
    ensures OneWord("cached") && OneWord("operation") && OneWord("ip_address")
  {
  }

  lemma DurationName() ensures OneWord("source_db_duration_ms") {}

  lemma NameIsWord(c: Column)
    ensures OneWord(ColumnName(c))
  {
    hide OneWord;
    ClientNames();
    CallNames();
    OutcomeNames();
    DurationName();
  }

  lemma ColumnsRead(rest: string)
    ensures ColumnsOf(HeadText() + rest) == ColumnNames()
  {
    hide Words, OneWord, Join, ColumnName, ReadNames, Listed;
    var names := ColumnNames();
    var list := Join(names, ", ");
    forall n | n in names ensures OneWord(n) {
      var i :| 0 <= i < COLS && names[i] == n;
      NameIsWord(COLUMNS[i]);
    }
    JoinListed(names);
    var tail := " VALUES " + rest;
    InsertWords(list, tail);
    NamesRead(names, Words(tail));
    assert HeadText() + rest == "INSERT INTO api_request_logs (" + (list + ")" + tail) by {
      assert "INSERT INTO api_request_logs (" + list + ") VALUES " + rest
          == "INSERT INTO api_request_logs (" + (list + (") VALUES " + rest));
      assert ") VALUES " + rest == ")" + tail;
    }
  }

  lemma InsertWords(list: string, tail: string)
    ensures Words("INSERT INTO api_request_logs (" + (list + ")" + tail))
        == ["INSERT", "INTO", "api_request_logs", "("] + (Words(list) + ([")"] + Words(tail)))
  {
    hide Words, OneWord;
    InsertKeywords();
    WordsSplit(list, ')', tail);
    var body := list + ")" + tail;
    WordsMark('(', body);
    WordThen("api_request_logs", "(" + body);
    WordThen("INTO", "api_request_logs" + " " + ("(" + body));
    WordThen("INSERT", "INTO" + " " + ("api_request_logs" + " " + ("(" + body)));
    assert "INSERT INTO api_request_logs (" + body
        == "INSERT" + " " + ("INTO" + " " + ("api_request_logs" + " " + ("(" + body))) by {
      assert "INSERT INTO api_request_logs (" == "INSERT" + " " + ("INTO" + " " + ("api_request_logs" + " " + "("));
    }
    assert Words(list) + [")"] + Words(tail) == Words(list) + ([")"] + Words(tail));
    assert ["INSERT"] + (["INTO"] + (["api_request_logs"] + (["("] + Words(body))))
        == ["INSERT", "INTO", "api_request_logs", "("] + Words(body);
  }

  lemma InsertKeywords()
    ensures OneWord("INSERT") && OneWord("INTO") && OneWord("api_request_logs")
  {
  }

  lemma FieldIsNamed(r: Log, c: Column)
    ensures FieldNamed(r, ColumnName(c)) == Some(Field(r, c))
  {
  }

  /** Read from the text of the statement: the placeholder at place j of tuple i names the argument
      that holds, of record i, the field that the j-th listed column is for; and a flushed batch stays
      within the 65535 parameters the protocol allows. */
  lemma PlaceholderNames(rs: seq<Log>, i: nat, j: nat)
    requires i < |rs| <= MAX_BATCH && j < COLS
    ensures var tuples := Split(RowsText(|rs|), ')');
      && i < |tuples| && |Numbers(tuples[i])| == COLS
      && var p := Numbers(tuples[i])[j];
         && 1 <= p <= |ArgsOf(rs)| <= 56_000 < 65_535
         && var columns := ColumnsOf(HeadText() + RowsText(|rs|));
            |columns| == COLS && Some(ArgsOf(rs)[p - 1]) == FieldNamed(rs[i], columns[j])
  {
    hide Numbers, RowsText, Split, FieldNamed, ColumnName, ColumnsOf, HeadText;
    ColumnsRead(RowsText(|rs|));
    FieldIsNamed(rs[i], COLUMNS[j]);
    TuplesMatchRows(|rs|);
    var p := i * COLS + j + 1;
    assert (p - 1) / COLS == i && (p - 1) % COLS == j;
  }
}
