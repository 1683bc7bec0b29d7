/**
  The captured trace told from the mirrored messages alone: which events are in it, of which rows, how
  many and in which order.
 */
module ParityRows {
  import opened Options
  import opened ParityOracle

  // ---------------------------------------------------------------- what counts

  predicate InWindow(sc: Scope, ts: Option<int>) {
    ts.Some? ==> (sc.since.Some? ==> sc.since.value <= ts.value) && (sc.until.Some? ==> ts.value <= sc.until.value)
  }

  /** The server answered this id with a result, somewhere in the list. */
  predicate AnsweredByServer(rows: seq<Row>, id: Id) {
    exists l | 0 <= l < |rows| :: rows[l].dir == In && rows[l].id == id && rows[l].body.Answer?
  }

  predicate Calls(sc: Scope, row: Row, id: Id) {
    InWindow(sc, row.ts) && row.id == id && row.dir == In && row.body.ToolCall?
  }

  predicate Answers(sc: Scope, row: Row, id: Id) {
    InWindow(sc, row.ts) && row.id == id && row.dir == Out && row.body.Answer?
  }

  /** Row `j` is the call `id` that is open at row `i`: none of that id, and no answer to it, in between. */
  predicate OpenCall(sc: Scope, rows: seq<Row>, i: nat, id: Id, j: nat) {
    && j < i <= |rows| && Calls(sc, rows[j], id)
    && forall l | j < l < i :: !Calls(sc, rows[l], id) && !Answers(sc, rows[l], id)
  }

  predicate Sends(sc: Scope, rows: seq<Row>, row: Row, c: string) {
    InWindow(sc, row.ts) && row.dir == Out && row.body.Steer? && row.body.client == c && AnsweredByServer(rows, row.id)
  }

  predicate Displays(sc: Scope, row: Row, c: string) {
    InWindow(sc, row.ts) && row.dir == In && row.body == UserMessage(c)
  }

  /** Row `j` is the accepted steer of `c` that is open at row `i`: none later, and not shown yet. */
  predicate OpenSteer(sc: Scope, rows: seq<Row>, i: nat, c: string, j: nat) {
    && j < i <= |rows| && Sends(sc, rows, rows[j], c)
    && forall l | j < l < i :: !Sends(sc, rows, rows[l], c) && !Displays(sc, rows[l], c)
  }

  /** The item finished last before row `i` is called `name`; `?` when none was. */
  predicate FinishedLast(sc: Scope, rows: seq<Row>, i: nat, name: string)
    requires i <= |rows|
  {
    || (name == "?" && forall l | 0 <= l < i :: !Finishes(sc, rows[l]))
    || exists j | 0 <= j < i && Finishes(sc, rows[j]) ::
         Label(rows[j].body.item) == Some(name) && forall l | j < l < i :: !Finishes(sc, rows[l])
  }

  /** The first reminder appended to a text starts, with its blank line, at `n`. */
  ghost predicate AppendedAt(text: string, n: nat) {
    OccursAt(text, "\n\n" + MARK, n) && forall j: nat | j < n :: !OccursAt(text, "\n\n" + MARK, j)
  }

  ghost predicate NothingAppended(text: string) {
    forall j: nat :: !OccursAt(text, "\n\n" + MARK, j)
  }

  /** The part of an answer in front of the first reminder. */
  ghost predicate OwnPart(text: string, own: string) {
    (NothingAppended(text) && own == text) || exists n: nat | AppendedAt(text, n) :: n <= |text| && own == text[..n]
  }

  /** One of the reminders appended to an answer. */
  ghost predicate AppendedBlock(text: string, block: string) {
    exists n: nat | AppendedAt(text, n) :: n + 2 <= |text| && block in Blocks(text[n + 2..], "\n\n")
  }

  /** Row `i` puts event `e` into the trace. */
  ghost predicate Reports(sc: Scope, rows: seq<Row>, i: nat, e: Event)
    requires i < |rows|
  {
    var row := rows[i];
    InWindow(sc, row.ts) && e.ts == row.ts &&
    match e
    case ToolUse(tool, prompt, _) => row.dir == In && row.body == ToolCall(tool, prompt) && tool in PARITY_TOOLS
    case ToolResult(tool, text, failed, _) =>
      && row.dir == Out && row.body.Answer? && row.body.failed == failed && tool in PARITY_TOOLS
      && AnswersCall(sc, rows, i, tool) && OwnPart(row.body.text, text)
    case Attached(text, to, _) =>
      || (row.dir == Out && row.body.Answer? && AnswersCall(sc, rows, i, to) && AppendedBlock(row.body.text, text))
      || (row.dir == In && row.body.UserMessage? && ShowsSteer(sc, rows, i, text) && FinishedLast(sc, rows, i, to))
    case Standalone(text, _) =>
      row.dir == Out && row.body.Start? && AnsweredByServer(rows, row.id) && MARK <= row.body.input && text in Blocks(row.body.input, "\n")
    case CronFire(text, _) =>
      && row.dir == Out && row.body == Start(text) && AnsweredByServer(rows, row.id)
      && !(MARK <= text) && (sc.exclude == "" || !(sc.exclude <= text))
  }

  ghost predicate AnswersCall(sc: Scope, rows: seq<Row>, i: nat, tool: string)
    requires i < |rows|
  {
    exists j: nat | OpenCall(sc, rows, i, rows[i].id, j) :: rows[j].body.tool == tool
  }

  ghost predicate ShowsSteer(sc: Scope, rows: seq<Row>, i: nat, block: string)
    requires i < |rows| && rows[i].body.UserMessage?
  {
    exists j: nat | OpenSteer(sc, rows, i, rows[i].body.client, j) :: block in Blocks(rows[j].body.input, "\n\n")
  }

  ghost predicate SomeReports(sc: Scope, rows: seq<Row>, k: nat, e: Event)
    requires k <= |rows|
  {
    exists i | 0 <= i < k :: Reports(sc, rows, i, e)
  }

  // ---------------------------------------------------------------- the backward-looking functions, exactly

  lemma {:induction false} InsideIs(sc: Scope, row: Row)
    ensures Inside(sc, row) <==> InWindow(sc, row.ts)
  {
  }

  lemma {:induction false} AcceptedIs(rows: seq<Row>, id: Id)
    ensures id in Accepted(rows) <==> AnsweredByServer(rows, id)
  {
  }

  lemma {:induction false} PendingCallIs(sc: Scope, rows: seq<Row>, i: nat, id: Id)
    requires i <= |rows|
    ensures forall j: nat | OpenCall(sc, rows, i, id, j) :: PendingCall(sc, rows, i, id) == Some(rows[j].body.tool)
    ensures PendingCall(sc, rows, i, id).Some? ==> exists j: nat :: OpenCall(sc, rows, i, id, j)
  {
    if i > 0 {
      PendingCallIs(sc, rows, i - 1, id);
      forall j: nat | j < i - 1 ensures OpenCall(sc, rows, i, id, j) <==>
        OpenCall(sc, rows, i - 1, id, j) && !Calls(sc, rows[i - 1], id) && !Answers(sc, rows[i - 1], id) {
      }
      if Calls(sc, rows[i - 1], id) {
        assert OpenCall(sc, rows, i, id, i - 1);
      }
    }
  }

  lemma {:induction false} PendingSteerIs(sc: Scope, rows: seq<Row>, i: nat, c: string)
    requires i <= |rows|
    ensures forall j: nat :: OpenSteer(sc, rows, i, c, j) <==> PendingSteer(sc, rows, i, c) == Some(j)
  {
    forall l | 0 <= l < i ensures Sends(sc, rows, rows[l], c) <==> Steers(sc, rows, l, c) {
      AcceptedIs(rows, rows[l].id);
    }
    forall l | 0 <= l < i ensures Displays(sc, rows[l], c) <==> Witnesses(sc, rows, l, c) {
    }
    forall j: nat | OpenSteer(sc, rows, i, c, j) ensures PendingSteer(sc, rows, i, c) == Some(j) {
      OpenSteerPends(sc, rows, i, c, j);
    }
  }

  lemma {:induction false} OpenSteerPends(sc: Scope, rows: seq<Row>, i: nat, c: string, j: nat)
    requires i <= |rows| && j < i && Steers(sc, rows, j, c)
    requires forall l | j < l < i :: !Steers(sc, rows, l, c) && !Witnesses(sc, rows, l, c)
    ensures PendingSteer(sc, rows, i, c) == Some(j)
  {
    if j < i - 1 {
      OpenSteerPends(sc, rows, i - 1, c, j);
    }
  }

  lemma {:induction false} LastDoneIs(sc: Scope, rows: seq<Row>, i: nat, name: string)
    requires i <= |rows|
    ensures FinishedLast(sc, rows, i, name) <==>
              (match LastDone(sc, rows, i) case None => name == "?" case Some(done) => name == done)
  {
    if i > 0 {
      LastDoneIs(sc, rows, i - 1, name);
      var r := LastDone(sc, rows, i);
      if r.Some? {
        var j :| 0 <= j < i && Finishes(sc, rows[j]) && Label(rows[j].body.item) == r && forall l | j < l < i :: !Finishes(sc, rows[l]);
        forall k | 0 <= k < i && Finishes(sc, rows[k]) && (forall l | k < l < i :: !Finishes(sc, rows[l])) ensures k == j {
          OneIsLast(sc, rows, i, j, k);
        }
      }
    }
  }

  lemma {:induction false} OneIsLast(sc: Scope, rows: seq<Row>, i: nat, j: nat, k: nat)
    requires j < i <= |rows| && k < i && Finishes(sc, rows[j]) && Finishes(sc, rows[k])
    requires (forall l | j < l < i :: !Finishes(sc, rows[l])) && forall l | k < l < i :: !Finishes(sc, rows[l])
    ensures j == k
  {
  }

  lemma {:induction false} OwnTextIs(text: string, own: string)
    ensures own == OwnText(text) <==> OwnPart(text, own)
  {
    var f := Find(text, "\n\n" + MARK);
    if f.Some? {
      FirstIsFound(text, f.value);
    }
  }

  lemma {:induction false} FirstIsFound(text: string, n: nat)
    requires AppendedAt(text, n)
    ensures forall k: nat | AppendedAt(text, k) :: k == n
  {
  }

  lemma {:induction false} AppendedIs(text: string, block: string)
    ensures block in Appended(text) <==> AppendedBlock(text, block)
  {
    var f := Find(text, "\n\n" + MARK);
    if f.Some? {
      FirstIsFound(text, f.value);
      assert Appended(text) == Blocks(text[f.value + 2..], "\n\n");
    }
  }

  // ---------------------------------------------------------------- one row

  lemma {:induction false} AnswersCallIs(sc: Scope, rows: seq<Row>, i: nat, tool: string)
    requires i < |rows|
    ensures AnswersCall(sc, rows, i, tool) <==> PendingCall(sc, rows, i, rows[i].id) == Some(tool)
  {
    PendingCallIs(sc, rows, i, rows[i].id);
  }

  lemma {:induction false} ShowsSteerIs(sc: Scope, rows: seq<Row>, i: nat, block: string)
    requires i < |rows| && rows[i].body.UserMessage?
    ensures ShowsSteer(sc, rows, i, block) <==>
              var text := SteerText(sc, rows, i, rows[i].body.client); text.Some? && block in Blocks(text.value, "\n\n")
  {
    PendingSteerIs(sc, rows, i, rows[i].body.client);
  }

  lemma {:induction false} AttachAllHolds(blocks: seq<string>, to: string, ts: Option<int>, e: Event)
    ensures e in AttachAll(blocks, to, ts) <==> e.Attached? && e.text in blocks && e.to == to && e.ts == ts
  {
    if e.Attached? && e.text in blocks && e.to == to && e.ts == ts {
      var n :| 0 <= n < |blocks| && blocks[n] == e.text;
      assert AttachAll(blocks, to, ts)[n] == e;
    }
  }

  lemma {:induction false} StandAllHolds(blocks: seq<string>, ts: Option<int>, e: Event)
    ensures e in StandAll(blocks, ts) <==> e.Standalone? && e.text in blocks && e.ts == ts
  {
    if e.Standalone? && e.text in blocks && e.ts == ts {
      var n :| 0 <= n < |blocks| && blocks[n] == e.text;
      assert StandAll(blocks, ts)[n] == e;
    }
  }

  lemma {:induction false} AnswerReports(sc: Scope, rows: seq<Row>, i: nat, e: Event)
    requires i < |rows| && InWindow(sc, rows[i].ts) && rows[i].dir == Out && rows[i].body.Answer?
    ensures e in Meaning(sc, rows, i) <==> Reports(sc, rows, i, e)
  {
    var row := rows[i];
    var call := PendingCall(sc, rows, i, row.id);
    match e {
      case ToolResult(tool, text, _, _) =>
        AnswersCallIs(sc, rows, i, tool);
        OwnTextIs(row.body.text, text);
      case Attached(text, to, _) =>
        AnswersCallIs(sc, rows, i, to);
        AppendedIs(row.body.text, text);
      case _ =>
    }
    if call.Some? {
      AttachAllHolds(Appended(row.body.text), call.value, row.ts, e);
    }
  }

  lemma {:induction false} MessageReports(sc: Scope, rows: seq<Row>, i: nat, e: Event)
    requires i < |rows| && InWindow(sc, rows[i].ts) && rows[i].dir == In && rows[i].body.UserMessage?
    ensures e in Meaning(sc, rows, i) <==> Reports(sc, rows, i, e)
  {
    var row := rows[i];
    var last := LastDone(sc, rows, i);
    var text := SteerText(sc, rows, i, row.body.client);
    if text.Some? {
      AttachAllHolds(Blocks(text.value, "\n\n"), if last.Some? then last.value else "?", row.ts, e);
    }
    if e.Attached? {
      ShowsSteerIs(sc, rows, i, e.text);
      LastDoneIs(sc, rows, i, e.to);
    }
  }

  lemma {:induction false} StartReports(sc: Scope, rows: seq<Row>, i: nat, e: Event)
    requires i < |rows| && InWindow(sc, rows[i].ts) && rows[i].dir == Out && rows[i].body.Start?
    ensures e in Meaning(sc, rows, i) <==> Reports(sc, rows, i, e)
  {
    AcceptedIs(rows, rows[i].id);
    StandAllHolds(Blocks(rows[i].body.input, "\n"), rows[i].ts, e);
  }

  lemma {:induction false} RowReports(sc: Scope, rows: seq<Row>, i: nat, e: Event)
    requires i < |rows|
    ensures e in Meaning(sc, rows, i) <==> Reports(sc, rows, i, e)
  {
    var row := rows[i];
    InsideIs(sc, row);
    if InWindow(sc, row.ts) {
      if row.dir == Out && row.body.Answer? {
        AnswerReports(sc, rows, i, e);
      } else if row.dir == In && row.body.UserMessage? {
        MessageReports(sc, rows, i, e);
      } else if row.dir == Out && row.body.Start? {
        StartReports(sc, rows, i, e);
      }
    }
  }

  // ---------------------------------------------------------------- the trace

  /** Main result: an event is in the trace if and only if some row reports it. */
  lemma {:induction false} TraceExactly(sc: Scope, rows: seq<Row>, k: nat, e: Event)
    requires k <= |rows|
    ensures e in Reference(sc, rows, k) <==> SomeReports(sc, rows, k, e)
  {
    if e in Reference(sc, rows, k) {
      var i := RowOfEvent(sc, rows, k, e);
      RowReports(sc, rows, i, e);
    }
    if SomeReports(sc, rows, k, e) {
      var i :| 0 <= i < k && Reports(sc, rows, i, e);
      RowReports(sc, rows, i, e);
      TraceInRowOrder(sc, rows, i, k);
      PrefixHolds(Reference(sc, rows, i), Meaning(sc, rows, i), Reference(sc, rows, k), e);
    }
  }

  lemma {:induction false} PrefixHolds(a: seq<Event>, b: seq<Event>, all: seq<Event>, e: Event)
    requires a + b <= all && e in b
    ensures e in all
  {
    assert e in a + b;
  }

  /** Rows report in their order, without repeats: the trace up to a row, then what that row says, is the
      front of every later trace. */
  lemma {:induction false} TraceInRowOrder(sc: Scope, rows: seq<Row>, i: nat, k: nat)
    requires i < k <= |rows|
    ensures Reference(sc, rows, i) + Meaning(sc, rows, i) <= Reference(sc, rows, k)
  {
    TraceGrows(sc, rows, i + 1, k);
    NextRow(sc, rows, i);
  }

  lemma {:induction false} NextRow(sc: Scope, rows: seq<Row>, i: nat)
    requires i < |rows|
    ensures Reference(sc, rows, i + 1) == Reference(sc, rows, i) + Meaning(sc, rows, i)
  {
  }

  lemma {:induction false} TraceGrows(sc: Scope, rows: seq<Row>, i: nat, k: nat)
    requires i <= k <= |rows|
    ensures Reference(sc, rows, i) <= Reference(sc, rows, k)
  {
    var trace := (n: nat) => if n <= |rows| then Reference(sc, rows, n) else [];
    forall n: nat | n < k ensures trace(n) <= trace(n + 1) {
      ReferenceGrows(sc, rows, n + 1);
    }
    PrefixesGrow(trace, i, k);
  }

  lemma {:induction false} PrefixesGrow(trace: nat -> seq<Event>, i: nat, k: nat)
    requires i <= k && forall n: nat | n < k :: trace(n) <= trace(n + 1)
    ensures trace(i) <= trace(k)
  {
    if i < k {
      PrefixesGrow(trace, i, k - 1);
      assert trace(k - 1) <= trace(k - 1 + 1);
    }
  }

  lemma {:induction false} ReferenceGrows(sc: Scope, rows: seq<Row>, k: nat)
    requires 0 < k <= |rows|
    ensures Reference(sc, rows, k - 1) <= Reference(sc, rows, k)
  {
  }

  /** How many events a row says, and in which order: a tool call at most one, a shown steer one per block. */
  lemma {:induction false} OnePerShownBlock(sc: Scope, rows: seq<Row>, i: nat, j: nat)
    requires i < |rows| && InWindow(sc, rows[i].ts) && rows[i].dir == In
    ensures rows[i].body.ToolCall? ==> |Meaning(sc, rows, i)| <= 1
    ensures rows[i].body.UserMessage? && OpenSteer(sc, rows, i, rows[i].body.client, j) ==>
              var said, blocks := Meaning(sc, rows, i), Blocks(rows[j].body.input, "\n\n");
              |said| == |blocks| && forall n | 0 <= n < |blocks| :: said[n].Attached? && said[n].text == blocks[n]
  {
    InsideIs(sc, rows[i]);
    if rows[i].body.UserMessage? {
      PendingSteerIs(sc, rows, i, rows[i].body.client);
    }
  }

  /** An accepted start one per block, or one cron fire, or none for a driver's prompt. */
  lemma {:induction false} OnePerStartBlock(sc: Scope, rows: seq<Row>, i: nat)
    requires i < |rows| && InWindow(sc, rows[i].ts) && rows[i].dir == Out && rows[i].body.Start? && AnsweredByServer(rows, rows[i].id)
    ensures var text, said := rows[i].body.input, Meaning(sc, rows, i);
            if MARK <= text then
              var blocks := Blocks(text, "\n");
              |said| == |blocks| && forall n | 0 <= n < |blocks| :: said[n].Standalone? && said[n].text == blocks[n]
            else |said| == if sc.exclude != "" && sc.exclude <= text then 0 else 1
  {
    InsideIs(sc, rows[i]);
    AcceptedIs(rows, rows[i].id);
  }

  /** An answer to an open call the parity tool's result first and then one per appended block. */
  lemma {:induction false} OnePerAppendedBlock(sc: Scope, rows: seq<Row>, i: nat, j: nat)
    requires i < |rows| && InWindow(sc, rows[i].ts) && rows[i].dir == Out && rows[i].body.Answer?
    requires OpenCall(sc, rows, i, rows[i].id, j)
    ensures var first := if rows[j].body.tool in PARITY_TOOLS then 1 else 0;
            var said, blocks := Meaning(sc, rows, i), Appended(rows[i].body.text);
            && |said| == first + |blocks| && (first == 1 ==> said[0].ToolResult?)
            && forall n | 0 <= n < |blocks| :: said[first + n].Attached? && said[first + n].text == blocks[n]
  {
    InsideIs(sc, rows[i]);
    PendingCallIs(sc, rows, i, rows[i].id);
    var row, tool := rows[i], rows[j].body.tool;
    AnswerCounts(tool, row.body.text, row.body.failed, row.ts);
    assert Meaning(sc, rows, i) == OfAnswer(tool, row.body.text, row.body.failed, row.ts);
  }

  lemma {:induction false} AnswerCounts(tool: string, text: string, failed: bool, ts: Option<int>)
    ensures var first := if tool in PARITY_TOOLS then 1 else 0;
            var said, blocks := OfAnswer(tool, text, failed, ts), Appended(text);
            && |said| == first + |blocks| && (first == 1 ==> said[0].ToolResult?)
            && forall n | 0 <= n < |blocks| :: said[first + n].Attached? && said[first + n].text == blocks[n]
  {
    var head := if tool in PARITY_TOOLS then [ToolResult(tool, OwnText(text), failed, ts)] else [];
    AttachedAfter(head, Appended(text), tool, ts);
  }

  lemma {:induction false} AttachedAfter(head: seq<Event>, blocks: seq<string>, to: string, ts: Option<int>)
    ensures var said := head + AttachAll(blocks, to, ts);
            && |said| == |head| + |blocks| && head == said[..|head|]
            && forall n | 0 <= n < |blocks| :: said[|head| + n].Attached? && said[|head| + n].text == blocks[n]
  {
  }

  /** An answer to which a seat has appended reminders comes apart into what the tool said and the reminders
      as they were written. */
  lemma {:induction false} AnswerComesApart(own: string, bs: seq<string>)
    requires Free(own, "\n\n" + MARK) && bs != [] && forall b | b in bs :: Reminder(b, "\n\n")
    ensures var text := own + "\n\n" + Join(bs, "\n\n"); OwnText(text) == own && Appended(text) == bs
  {
    var glue, rest := "\n\n", Join(bs, "\n\n");
    var text := own + glue + rest;
    assert bs[0] in bs && MARK <= rest;
    forall j: nat | j < |own| ensures !OccursAt(text, glue + MARK, j) {
      NoStraddle(own, glue, rest, j);
    }
    OccursAtIs(text, glue + MARK, |own|);
    assert text[|own|..|own| + |glue + MARK|] == glue + MARK by {
      assert rest[..|MARK|] == MARK;
    }
    FoundAt(text, glue + MARK, |own|);
    assert text[..|own|] == own && text[|own| + 2..] == rest;
    BlocksRecover(bs, glue);
  }

  lemma {:induction false} FoundAt(text: string, sep: string, i: nat)
    requires sep != "" && OccursAt(text, sep, i) && forall j: nat | j < i :: !OccursAt(text, sep, j)
    ensures Find(text, sep) == Some(i)
  {
  }

  // ---------------------------------------------------------------- what a case causes

  /** The first line of the text is `line`. */
  predicate FirstLineIs(text: string, line: string) {
    '\n' !in line && (text == line || line + "\n" <= text)
  }

  lemma {:induction false} FirstLineExactly(text: string, line: string)
    ensures FirstLine(text) == line <==> FirstLineIs(text, line)
  {
    if text != "" && text[0] != '\n' {
      var rest := text[1..];
      FirstLineExactly(rest, FirstLine(rest));
      assert FirstLine(text) == [text[0]] + FirstLine(rest);
      if line != "" {
        FirstLineExactly(rest, line[1..]);
        assert line == [line[0]] + line[1..] && text == [text[0]] + rest;
        assert line + "\n" == [line[0]] + (line[1..] + "\n");
        assert '\n' !in line <==> line[0] != '\n' && '\n' !in line[1..];
      }
    } else {
      assert line != "" && line + "\n" <= text ==> text[0] == line[0] && line[0] in line;
    }
  }

  /** A notification is caused by a monitor of the trace whose result names one of its tasks, and a cron fire
      by a cron that was created in the trace with its first line as the prompt. */
  ghost predicate CausedHere(x: Ids, trace: seq<Event>, e: Event) {
    match e
    case Attached(text, _, _) => MonitoredHere(x, trace, text)
    case Standalone(text, _) => MonitoredHere(x, trace, text)
    case CronFire(text, _) => exists u | u in trace && u.ToolUse? && u.tool == "CronCreate" :: FirstLineIs(text, u.prompt)
    case ToolUse(_, _, _) => true
    case ToolResult(_, _, _, _) => true
  }

  ghost predicate MonitoredHere(x: Ids, trace: seq<Event>, text: string) {
    exists r, id | r in trace && r.ToolResult? && r.tool == "Monitor" && id in x.inResult(r.text) :: id in x.inNote(text)
  }

  lemma {:induction false} MonitoredIs(x: Ids, trace: seq<Event>, text: string)
    ensures x.inNote(text) * Tasks(x, trace) != {} <==> MonitoredHere(x, trace, text)
  {
    if x.inNote(text) * Tasks(x, trace) != {} {
      var id :| id in x.inNote(text) * Tasks(x, trace);
      var r :| r in trace && r.ToolResult? && r.tool == "Monitor" && id in x.inResult(r.text);
    }
    if MonitoredHere(x, trace, text) {
      var r, id :| r in trace && r.ToolResult? && r.tool == "Monitor" && id in x.inResult(r.text) && id in x.inNote(text);
      assert id in Tasks(x, trace);
      assert id in x.inNote(text) * Tasks(x, trace);
    }
  }

  lemma {:induction false} KeptIs(x: Ids, trace: seq<Event>, e: Event)
    ensures Kept(x, Tasks(x, trace), Prompts(trace), e) <==> CausedHere(x, trace, e)
  {
    match e
    case Attached(text, _, _) => MonitoredIs(x, trace, text);
    case Standalone(text, _) => MonitoredIs(x, trace, text);
    case CronFire(text, _) =>
      forall p ensures FirstLine(text) == p <==> FirstLineIs(text, p) {
        FirstLineExactly(text, p);
      }
    case _ =>
  }

  /** Increasing positions of a list. */
  predicate Rising(at: seq<nat>, n: nat) {
    && (forall i, j | 0 <= i < j < |at| :: at[i] < at[j])
    && forall i | 0 <= i < |at| :: at[i] < n
  }

  lemma {:induction false} FilterPlaces(x: Ids, tasks: set<string>, prompts: set<string>, trace: seq<Event>) returns (at: seq<nat>)
    ensures Rising(at, |trace|) && |at| == |Filter(x, tasks, prompts, trace)|
    ensures forall n | 0 <= n < |at| :: Filter(x, tasks, prompts, trace)[n] == trace[at[n]]
    ensures forall i | 0 <= i < |trace| :: i in at <==> Kept(x, tasks, prompts, trace[i])
  {
    at := [];
    if trace != [] {
      var front := trace[..|trace| - 1];
      at := FilterPlaces(x, tasks, prompts, front);
      if Kept(x, tasks, prompts, trace[|front|]) {
        at := at + [|front|];
      }
    }
  }

  /** Main result: the filter keeps exactly the events a case caused, at their places and in their order. */
  lemma {:induction false} CaseOnlyExactly(x: Ids, trace: seq<Event>) returns (at: seq<nat>)
    ensures Rising(at, |trace|) && |at| == |CaseOnlyOf(x, trace)|
    ensures forall n | 0 <= n < |at| :: CaseOnlyOf(x, trace)[n] == trace[at[n]]
    ensures forall i | 0 <= i < |trace| :: i in at <==> CausedHere(x, trace, trace[i])
  {
    at := FilterPlaces(x, Tasks(x, trace), Prompts(trace), trace);
    forall i | 0 <= i < |trace| ensures i in at <==> CausedHere(x, trace, trace[i]) {
      KeptIs(x, trace, trace[i]);
    }
  }
}
