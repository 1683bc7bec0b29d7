/**
  The capture of a Codex seat's trace: one pass over the mirrored messages keeps the open tool calls,
  the steers not yet seen by the model and the last finished item.  `Reference` says, looking back
  over the whole list, what each message means; `Capture` is the single pass.
 */
module ParityOracle {
  import opened Options

  const MARK := "<system-reminder>"

  // ---------------------------------------------------------------- reminder blocks

  predicate OccursAt(text: string, sep: string, i: nat) {
    if i == 0 then sep <= text else text != "" && OccursAt(text[1..], sep, i - 1)
  }

  lemma {:induction false} OccursAtIs(text: string, sep: string, i: nat)
    ensures OccursAt(text, sep, i) <==> i + |sep| <= |text| && text[i..i + |sep|] == sep
  {
    if i == 0 {
      assert sep <= text <==> |sep| <= |text| && text[0..|sep|] == sep;
    } else if text != "" {
      OccursAtIs(text[1..], sep, i - 1);
      assert i + |sep| <= |text| ==> text[1..][i - 1..i - 1 + |sep|] == text[i..i + |sep|];
    }
  }

  /** The least position at which `sep` occurs. */
  function Find(text: string, sep: string): (i: Option<nat>)
    requires sep != ""
    ensures i.Some? ==> i.value + |sep| <= |text| && OccursAt(text, sep, i.value)
    ensures i.Some? ==> forall j: nat | j < i.value :: !OccursAt(text, sep, j)
    ensures i == None ==> forall j: nat :: !OccursAt(text, sep, j)
  {
    if sep <= text then Some(0)
    else if text == "" then None
    else
      var rest := Find(text[1..], sep);
      if rest == None then None else Some(rest.value + 1)
  }

  function Split(text: string, sep: string): (r: seq<string>)
    requires sep != ""
    ensures r != []
    decreases |text|
  {
    match Find(text, sep)
    case None => [text]
    case Some(i) => [text[..i]] + Split(text[i + |sep|..], sep)
  }

  function Join(parts: seq<string>, glue: string): string
    requires parts != []
  {
    if |parts| == 1 then parts[0] else parts[0] + glue + Join(parts[1..], glue)
  }

  /** A piece with the marker the split took from it; one that still starts with the marker is left as it is. */
  function Marked(piece: string): string {
    if MARK <= piece then piece else MARK + piece
  }

  function MarkedAll(pieces: seq<string>): (r: seq<string>)
    ensures |r| == |pieces| && forall i | 0 <= i < |r| :: r[i] == Marked(pieces[i])
  {
    seq(|pieces|, i requires 0 <= i < |pieces| => Marked(pieces[i]))
  }

  /** The reminder blocks of a text, split at blank lines (`glue`) before a marker. */
  function Blocks(text: string, glue: string): (r: seq<string>)
    ensures r != [] && forall b | b in r :: MARK <= b
  {
    MarkedAll(Split(text, glue + MARK))
  }

  lemma {:induction false} JoinSplit(text: string, sep: string)
    requires sep != ""
    ensures Join(Split(text, sep), sep) == text
    decreases |text|
  {
    match Find(text, sep)
    case None =>
    case Some(i) =>
      var rest := text[i + |sep|..];
      JoinSplit(rest, sep);
      assert ([text[..i]] + Split(rest, sep))[1..] == Split(rest, sep);
      OccursAtIs(text, sep, i);
      assert text == text[..i] + text[i..i + |sep|] + rest;
  }

  /** Newlines only, at least one. */
  predicate Newlines(glue: string) {
    glue != "" && forall i | 0 <= i < |glue| :: glue[i] == '\n'
  }

  lemma {:induction false} NoNewlineInMark()
    ensures |MARK| == 17 && MARK[0] == '<' && forall i | 0 <= i < |MARK| :: MARK[i] != '\n'
  {
  }

  /** The separator occurs nowhere in the text. */
  ghost predicate Free(b: string, sep: string) {
    forall j: nat :: !OccursAt(b, sep, j)
  }

  /** A reminder as a seat writes it: one marker in front, and no blank line with a marker inside. */
  ghost predicate Reminder(b: string, glue: string) {
    MARK <= b && !(MARK <= b[|MARK|..]) && Free(b, glue + MARK)
  }

  /** The separator does not start inside a text that is followed by the glue. */
  lemma {:induction false} NoStraddle(b: string, glue: string, rest: string, j: nat)
    requires Newlines(glue) && Free(b, glue + MARK) && j < |b|
    ensures !OccursAt(b + glue + rest, glue + MARK, j)
  {
    var sep, text, k := glue + MARK, b + glue + rest, |b| - j;
    NoNewlineInMark();
    OccursAtIs(text, sep, j);
    OccursAtIs(b, sep, j);
    if k < |sep| {
      var x := if k <= |glue| then |glue| else k;
      assert text[j + x] == glue[j + x - |b|] == '\n' && sep[x] == MARK[x - |glue|] != '\n';
      assert j + |sep| <= |text| ==> text[j..j + |sep|][x] == text[j + x];
    } else {
      assert text[j..j + |sep|] == b[j..j + |sep|];
    }
  }

  lemma {:induction false} SplitAt(text: string, sep: string, i: nat)
    requires sep != "" && OccursAt(text, sep, i) && forall j: nat | j < i :: !OccursAt(text, sep, j)
    ensures i + |sep| <= |text|
    ensures Split(text, sep) == [text[..i]] + Split(text[i + |sep|..], sep)
  {
    OccursAtIs(text, sep, i);
    var f := Find(text, sep);
    assert f.Some? && f.value == i;
  }

  lemma {:induction false} SplitFirst(b: string, glue: string, rest: string)
    requires Newlines(glue) && Free(b, glue + MARK) && MARK <= rest
    ensures Split(b + glue + rest, glue + MARK) == [b] + Split(rest[|MARK|..], glue + MARK)
  {
    var sep, text, bare := glue + MARK, b + glue + rest, rest[|MARK|..];
    assert text == b + sep + bare;
    forall j: nat | j < |b| ensures !OccursAt(text, sep, j) {
      NoStraddle(b, glue, rest, j);
    }
    OccursAtIs(text, sep, |b|);
    SplitAt(text, sep, |b|);
    assert text[..|b|] == b && text[|b| + |sep|..] == bare;
  }

  function Bare(bs: seq<string>): (r: seq<string>)
    requires forall b | b in bs :: |MARK| <= |b|
    ensures |r| == |bs| && forall i | 0 <= i < |r| :: bs[i] in bs && r[i] == bs[i][|MARK|..]
  {
    seq(|bs|, i requires 0 <= i < |bs| => assert bs[i] in bs; bs[i][|MARK|..])
  }

  lemma {:induction false} FreeTail(b: string, sep: string)
    requires Free(b, sep) && |MARK| <= |b|
    ensures Free(b[|MARK|..], sep)
  {
    forall j: nat ensures !OccursAt(b[|MARK|..], sep, j) {
      assert !OccursAt(b, sep, |MARK| + j);
      OccursAtIs(b, sep, |MARK| + j);
      OccursAtIs(b[|MARK|..], sep, j);
      if j + |sep| <= |b| - |MARK| {
        assert b[|MARK|..][j..j + |sep|] == b[|MARK| + j..|MARK| + j + |sep|];
      }
    }
  }

  lemma {:induction false} PiecesStep(first: string, b: string, more: seq<string>, glue: string)
    requires Newlines(glue) && Free(first, glue + MARK) && MARK <= b
    ensures Split(Join([first, b] + more, glue), glue + MARK) ==
            [first] + Split(Join([b[|MARK|..]] + more, glue), glue + MARK)
  {
    var bare, rest := b[|MARK|..], Join([b] + more, glue);
    assert ([first, b] + more)[1..] == [b] + more;
    assert ([b] + more)[1..] == more == ([bare] + more)[1..];
    assert rest == MARK + Join([bare] + more, glue);
    SplitFirst(first, glue, rest);
  }

  lemma {:induction false} PiecesRecover(first: string, bs: seq<string>, glue: string)
    requires Newlines(glue) && Free(first, glue + MARK) && forall b | b in bs :: Reminder(b, glue) && |MARK| <= |b|
    ensures Split(Join([first] + bs, glue), glue + MARK) == [first] + Bare(bs)
    decreases |bs|
  {
    if bs == [] {
      assert Find(first, glue + MARK) == None;
    } else {
      var b, more := bs[0], bs[1..];
      assert bs == [b] + more && b in bs;
      assert [first] + bs == [first, b] + more;
      PiecesStep(first, b, more, glue);
      FreeTail(b, glue + MARK);
      PiecesRecover(b[|MARK|..], more, glue);
      BareCons(b, more);
    }
  }

  lemma {:induction false} BareCons(b: string, more: seq<string>)
    requires |MARK| <= |b| && forall x | x in more :: |MARK| <= |x|
    ensures Bare([b] + more) == [b[|MARK|..]] + Bare(more)
  {
    assert forall i | 0 < i < |[b] + more| :: ([b] + more)[i] == more[i - 1];
  }

  /** What a seat joins, the capture takes apart: reminders come back as they were written. */
  lemma {:induction false} BlocksRecover(bs: seq<string>, glue: string)
    requires Newlines(glue) && bs != [] && forall b | b in bs :: Reminder(b, glue)
    ensures Blocks(Join(bs, glue), glue) == bs
  {
    assert bs[0] in bs && bs == [bs[0]] + bs[1..];
    PiecesRecover(bs[0], bs[1..], glue);
    MarkedBack(bs[0], bs[1..]);
  }

  lemma {:induction false} MarkedBack(first: string, bs: seq<string>)
    requires MARK <= first && forall b | b in bs :: MARK <= b && !(MARK <= b[|MARK|..])
    ensures MarkedAll([first] + Bare(bs)) == [first] + bs
  {
    forall i | 0 <= i < |bs| ensures Marked(Bare(bs)[i]) == bs[i] {
      assert bs[i] in bs;
      MarkedBare(bs[i]);
    }
    assert Marked(first) == first;
  }

  lemma {:induction false} MarkedBare(b: string)
    requires MARK <= b && !(MARK <= b[|MARK|..])
    ensures Marked(b[|MARK|..]) == b
  {
  }

  /** How many pieces after the first start with a marker of their own. */
  function Lost(pieces: seq<string>): nat
    requires pieces != []
  {
    if |pieces| == 1 then 0 else (if MARK <= pieces[1] then 1 else 0) + Lost(pieces[1..])
  }

  lemma {:induction false} LostNone(pieces: seq<string>)
    requires pieces != []
    ensures Lost(pieces) == 0 <==> forall i | 0 < i < |pieces| :: !(MARK <= pieces[i])
  {
    if |pieces| > 1 {
      LostNone(pieces[1..]);
      assert forall i | 1 < i < |pieces| :: pieces[i] == pieces[1..][i - 1];
      assert forall i | 0 < i < |pieces[1..]| :: pieces[1..][i] == pieces[i + 1];
    }
  }

  function Extra(piece: string): string {
    if MARK <= piece then "" else MARK
  }

  /** A later piece that starts with a marker of its own loses one when the blocks are joined. */
  lemma {:induction false} RejoinedLength(pieces: seq<string>, glue: string)
    requires pieces != []
    ensures |Join(MarkedAll(pieces), glue)| == |Join(pieces, glue + MARK)| + |Extra(pieces[0])| - 17 * Lost(pieces)
  {
    if |pieces| > 1 {
      RejoinedLength(pieces[1..], glue);
      assert MarkedAll(pieces)[1..] == MarkedAll(pieces[1..]);
    }
  }

  lemma {:induction false} Rejoined(pieces: seq<string>, glue: string)
    requires pieces != [] && Lost(pieces) == 0
    ensures Join(MarkedAll(pieces), glue) == Extra(pieces[0]) + Join(pieces, glue + MARK)
  {
    if |pieces| > 1 {
      Rejoined(pieces[1..], glue);
      assert MarkedAll(pieces)[1..] == MarkedAll(pieces[1..]);
      assert glue + (MARK + Join(pieces[1..], glue + MARK)) == (glue + MARK) + Join(pieces[1..], glue + MARK);
    }
  }

  /** Joining the blocks of a text gives the text back exactly when it starts with the marker and no
      later piece does: otherwise the capture shows a marker that was not there, or drops one that was. */
  lemma {:induction false} RejoinExactly(text: string, glue: string)
    requires Newlines(glue)
    ensures Join(Blocks(text, glue), glue) == text <==>
              MARK <= text && forall i | 0 < i < |Split(text, glue + MARK)| :: !(MARK <= Split(text, glue + MARK)[i])
  {
    JoinSplit(text, glue + MARK);
    FirstPiece(text, glue);
    RejoinPieces(Split(text, glue + MARK), glue, text);
  }

  lemma {:induction false} RejoinPieces(pieces: seq<string>, glue: string, text: string)
    requires pieces != [] && Join(pieces, glue + MARK) == text && (MARK <= pieces[0] <==> MARK <= text)
    ensures Join(MarkedAll(pieces), glue) == text <==> MARK <= text && forall i | 0 < i < |pieces| :: !(MARK <= pieces[i])
  {
    var again := Join(MarkedAll(pieces), glue);
    LostNone(pieces);
    if MARK <= text && Lost(pieces) == 0 {
      Rejoined(pieces, glue);
      assert again == "" + text;
    } else if MARK <= text {
      RejoinedLength(pieces, glue);
      assert |again| != |text|;
    } else {
      StartsMarked(pieces, glue);
      assert again != text;
    }
  }

  lemma {:induction false} StartsMarked(pieces: seq<string>, glue: string)
    requires pieces != []
    ensures MARK <= Join(MarkedAll(pieces), glue)
  {
    assert MARK <= Marked(pieces[0]) <= Join(MarkedAll(pieces), glue);
  }

  lemma {:induction false} FirstPiece(text: string, glue: string)
    requires Newlines(glue)
    ensures MARK <= Split(text, glue + MARK)[0] <==> MARK <= text
  {
    var f, sep := Find(text, glue + MARK), glue + MARK;
    if f.Some? {
      NoNewlineInMark();
      OccursAtIs(text, sep, f.value);
      assert text[f.value] == text[f.value..f.value + |sep|][0] == '\n';
      assert MARK <= text ==> forall x | 0 <= x < |MARK| :: text[x] == MARK[x];
      assert MARK <= text ==> |MARK| <= f.value;
      assert |MARK| <= f.value ==> text[..f.value][..|MARK|] == text[..|MARK|];
    }
  }

  // ---------------------------------------------------------------- the mirrored messages

  type Id = Option<int>                     // a JSON-RPC id; some messages carry none

  datatype Dir = In | Out

  datatype Item =
    | CommandExecution | FileChange | WebSearch | ImageView
    | McpCall(server: string, tool: string)
    | OtherItem

  datatype Body =
    | ToolCall(tool: string, prompt: string)            // item/tool/call
    | Completed(item: Item)                             // item/completed
    | UserMessage(client: string)                       // item/started of a userMessage; "" without clientId
    | Steer(client: string, input: string)              // turn/steer
    | Start(input: string)                              // turn/start
    | Answer(text: string, failed: bool)                // no method, with a result
    | Refusal                                           // no method, without a result
    | OtherMethod

  datatype Row = Row(ts: Option<int>, dir: Dir, id: Id, body: Body)

  datatype Event =
    | ToolUse(tool: string, prompt: string, ts: Option<int>)
    | ToolResult(tool: string, text: string, failed: bool, ts: Option<int>)
    | Attached(text: string, to: string, ts: Option<int>)
    | Standalone(text: string, ts: Option<int>)
    | CronFire(text: string, ts: Option<int>)

  datatype Error = NoEvents

  const PARITY_TOOLS := {"Monitor", "TaskStop", "CronCreate", "CronList", "CronDelete"}

  /** The label of an item a steer can follow; None for the others. */
  function Label(item: Item): (r: Option<string>)
    ensures r.Some? ==> r.value != ""
  {
    match item
    case CommandExecution => Some("bash")
    case FileChange => Some("edit")
    case WebSearch => Some("web_search")
    case ImageView => Some("view_image")
    case McpCall(server, tool) => Some(server + "/" + tool)
    case OtherItem => None
  }

  /** The capture window and the prompts that belong to the driver. */
  datatype Scope = Scope(since: Option<int>, until: Option<int>, exclude: string)

  predicate Inside(sc: Scope, row: Row) {
    row.ts == None || !((sc.since.Some? && row.ts.value < sc.since.value) || (sc.until.Some? && row.ts.value > sc.until.value))
  }

  /** The ids the server accepted, anywhere in the list, inside the window or not. */
  function Accepted(rows: seq<Row>): set<Id> {
    set r | r in rows && r.dir == In && r.body.Answer? :: r.id
  }

  // ---------------------------------------------------------------- looking back

  /** Row `j` steers client `c` and counts. */
  predicate Steers(sc: Scope, rows: seq<Row>, j: nat, c: string) {
    j < |rows| && Inside(sc, rows[j]) && rows[j].dir == Out && rows[j].body.Steer? && rows[j].body.client == c && rows[j].id in Accepted(rows)
  }

  /** Row `j` shows the model's input for client `c`. */
  predicate Witnesses(sc: Scope, rows: seq<Row>, j: nat, c: string) {
    j < |rows| && Inside(sc, rows[j]) && rows[j].dir == In && rows[j].body == UserMessage(c)
  }

  /** The steer for `c` that has not been shown when the first `k` rows are read: the last one sent, if
      no message of `c` followed it. */
  function PendingSteer(sc: Scope, rows: seq<Row>, k: nat, c: string): (r: Option<nat>)
    requires k <= |rows|
    ensures r.Some? ==> r.value < k && Steers(sc, rows, r.value, c)
    ensures r.Some? ==> forall l | r.value < l < k :: !Steers(sc, rows, l, c) && !Witnesses(sc, rows, l, c)
    ensures r == None ==> forall j | 0 <= j < k && Steers(sc, rows, j, c) :: exists l | j < l < k :: Witnesses(sc, rows, l, c)
  {
    if k == 0 then None
    else if Steers(sc, rows, k - 1, c) then Some(k - 1)
    else if Witnesses(sc, rows, k - 1, c) then None
    else PendingSteer(sc, rows, k - 1, c)
  }

  /** The tool of the call `id` that is still unanswered when the first `k` rows are read. */
  function PendingCall(sc: Scope, rows: seq<Row>, k: nat, id: Id): Option<string>
    requires k <= |rows|
  {
    if k == 0 then None
    else
      var row := rows[k - 1];
      if Inside(sc, row) && row.id == id && row.dir == In && row.body.ToolCall? then Some(row.body.tool)
      else if Inside(sc, row) && row.id == id && row.dir == Out && row.body.Answer? then None
      else PendingCall(sc, rows, k - 1, id)
  }

  predicate Finishes(sc: Scope, row: Row) {
    Inside(sc, row) && row.dir == In && row.body.Completed? && Label(row.body.item).Some?
  }

  /** The last item finished in the first `k` rows that a steer can follow. */
  function LastDone(sc: Scope, rows: seq<Row>, k: nat): (r: Option<string>)
    requires k <= |rows|
    ensures r == None ==> forall j | 0 <= j < k :: !Finishes(sc, rows[j])
    ensures r.Some? ==> exists j | 0 <= j < k :: Finishes(sc, rows[j]) && Label(rows[j].body.item) == r
                                                 && forall l | j < l < k :: !Finishes(sc, rows[l])
  {
    if k == 0 then None
    else if Finishes(sc, rows[k - 1]) then Label(rows[k - 1].body.item)
    else LastDone(sc, rows, k - 1)
  }

  function AttachAll(blocks: seq<string>, to: string, ts: Option<int>): (r: seq<Event>)
    ensures |r| == |blocks| && forall i | 0 <= i < |r| :: r[i] == Attached(blocks[i], to, ts)
  {
    seq(|blocks|, i requires 0 <= i < |blocks| => Attached(blocks[i], to, ts))
  }

  function StandAll(blocks: seq<string>, ts: Option<int>): (r: seq<Event>)
    ensures |r| == |blocks| && forall i | 0 <= i < |r| :: r[i] == Standalone(blocks[i], ts)
  {
    seq(|blocks|, i requires 0 <= i < |blocks| => Standalone(blocks[i], ts))
  }

  /** The tool's own text and the reminders appended to it. */
  function OwnText(text: string): string {
    match Find(text, "\n\n" + MARK)
    case None => text
    case Some(i) => text[..i]
  }

  function Appended(text: string): seq<string> {
    match Find(text, "\n\n" + MARK)
    case None => []
    case Some(i) => Blocks(text[i + 2..], "\n\n")
  }

  function OfAnswer(tool: string, text: string, failed: bool, ts: Option<int>): seq<Event> {
    (if tool in PARITY_TOOLS then [ToolResult(tool, OwnText(text), failed, ts)] else []) + AttachAll(Appended(text), tool, ts)
  }

  function OfStart(sc: Scope, text: string, ts: Option<int>): seq<Event> {
    if MARK <= text then StandAll(Blocks(text, "\n"), ts)
    else if sc.exclude != "" && sc.exclude <= text then []
    else [CronFire(text, ts)]
  }

  /** What a row means to the model: `steer` is the text it shows if it shows one, `call` the tool it
      answers, `last` the item finished before it, `ok` whether the server accepted its id. */
  function MeaningOf(sc: Scope, row: Row, ok: bool, steer: Option<string>, call: Option<string>, last: Option<string>): seq<Event> {
    if !Inside(sc, row) then []
    else match (row.dir, row.body)
      case (In, ToolCall(tool, prompt)) => if tool in PARITY_TOOLS then [ToolUse(tool, prompt, row.ts)] else []
      case (In, UserMessage(_)) =>
        if steer == None then [] else AttachAll(Blocks(steer.value, "\n\n"), if last.Some? then last.value else "?", row.ts)
      case (Out, Answer(text, failed)) => if call == None then [] else OfAnswer(call.value, text, failed, row.ts)
      case (Out, Start(text)) => if ok then OfStart(sc, text, row.ts) else []
      case _ => []
  }

  function SteerText(sc: Scope, rows: seq<Row>, k: nat, c: string): Option<string>
    requires k <= |rows|
  {
    var j := PendingSteer(sc, rows, k, c);
    if j == None then None else Some(rows[j.value].body.input)
  }

  /** What row `i` means to the model, looking back over the rows before it. */
  function Meaning(sc: Scope, rows: seq<Row>, i: nat): seq<Event>
    requires i < |rows|
  {
    var row := rows[i];
    MeaningOf(sc, row, row.id in Accepted(rows),
              if row.body.UserMessage? then SteerText(sc, rows, i, row.body.client) else None,
              PendingCall(sc, rows, i, row.id), LastDone(sc, rows, i))
  }

  function Reference(sc: Scope, rows: seq<Row>, k: nat): seq<Event>
    requires k <= |rows|
  {
    if k == 0 then [] else Reference(sc, rows, k - 1) + Meaning(sc, rows, k - 1)
  }

  // ---------------------------------------------------------------- one pass

  ghost predicate CallsAgree(sc: Scope, rows: seq<Row>, k: nat, calls: map<Id, string>)
    requires k <= |rows|
  {
    forall id: Id :: PendingCall(sc, rows, k, id) == At(calls, id)
  }

  ghost predicate SteersAgree(sc: Scope, rows: seq<Row>, k: nat, steers: map<string, string>)
    requires k <= |rows|
  {
    forall c: string :: SteerText(sc, rows, k, c) == At(steers, c)
  }

  predicate DoneAgrees(sc: Scope, rows: seq<Row>, k: nat, done: string)
    requires k <= |rows|
  {
    done == match LastDone(sc, rows, k) case None => "" case Some(name) => name
  }

  function At<K, V>(m: map<K, V>, k: K): Option<V> {
    if k in m then Some(m[k]) else None
  }

  /** A row's meaning read off the loop's variables. */
  function MeaningWith(sc: Scope, row: Row, accepted: set<Id>, calls: map<Id, string>, steers: map<string, string>, done: string): seq<Event> {
    MeaningOf(sc, row, row.id in accepted,
              if row.body.UserMessage? then At(steers, row.body.client) else None,
              At(calls, row.id), if done == "" then None else Some(done))
  }

  function NextCalls(sc: Scope, row: Row, calls: map<Id, string>): map<Id, string> {
    if Inside(sc, row) && row.dir == In && row.body.ToolCall? then calls[row.id := row.body.tool]
    else if Inside(sc, row) && row.dir == Out && row.body.Answer? then calls - {row.id}
    else calls
  }

  function NextSteers(sc: Scope, row: Row, accepted: set<Id>, steers: map<string, string>): map<string, string> {
    if Inside(sc, row) && row.dir == Out && row.body.Steer? && row.id in accepted then steers[row.body.client := row.body.input]
    else if Inside(sc, row) && row.dir == In && row.body.UserMessage? then steers - {row.body.client}
    else steers
  }

  lemma {:induction false} CallsStep(sc: Scope, rows: seq<Row>, i: nat, calls: map<Id, string>)
    requires i < |rows| && CallsAgree(sc, rows, i, calls)
    ensures CallsAgree(sc, rows, i + 1, NextCalls(sc, rows[i], calls))
  {
    forall id: Id ensures PendingCall(sc, rows, i + 1, id) == At(NextCalls(sc, rows[i], calls), id) {
      assert PendingCall(sc, rows, i, id) == At(calls, id);
    }
  }

  lemma {:induction false} SteersStep(sc: Scope, rows: seq<Row>, i: nat, steers: map<string, string>)
    requires i < |rows| && SteersAgree(sc, rows, i, steers)
    ensures SteersAgree(sc, rows, i + 1, NextSteers(sc, rows[i], Accepted(rows), steers))
  {
    var next := NextSteers(sc, rows[i], Accepted(rows), steers);
    forall c: string ensures SteerText(sc, rows, i + 1, c) == At(next, c) {
      assert SteerText(sc, rows, i, c) == At(steers, c);
      assert Steers(sc, rows, i, c) ==> next == steers[c := rows[i].body.input];
      assert Witnesses(sc, rows, i, c) ==> next == steers - {c};
    }
  }

  /** The branches of the loop body, on the loop's variables. */
  method CaptureRow(sc: Scope, row: Row, accepted: set<Id>, calls0: map<Id, string>, steers0: map<string, string>, done0: string)
    returns (more: seq<Event>, calls: map<Id, string>, steers: map<string, string>, done: string)
    ensures more == MeaningWith(sc, row, accepted, calls0, steers0, done0)
    ensures calls == NextCalls(sc, row, calls0)
    ensures steers == NextSteers(sc, row, accepted, steers0)
    ensures done == if Finishes(sc, row) then Label(row.body.item).value else done0
  {
    more, calls, steers, done := [], calls0, steers0, done0;
    if !Inside(sc, row) {
      return;
    }
    if row.dir == In && row.body.ToolCall? {
      calls := calls[row.id := row.body.tool];
      if row.body.tool in PARITY_TOOLS {
        more := [ToolUse(row.body.tool, row.body.prompt, row.ts)];
      }
    } else if row.dir == In && row.body.Completed? && Label(row.body.item).Some? {
      done := Label(row.body.item).value;
    } else if row.dir == In && row.body.UserMessage? {
      var c := row.body.client;
      if c in steers {
        more := AttachAll(Blocks(steers[c], "\n\n"), if done != "" then done else "?", row.ts);
        steers := steers - {c};
      }
    } else if row.dir == Out && row.body.Answer? && row.id in calls {
      more := OfAnswer(calls[row.id], row.body.text, row.body.failed, row.ts);
      calls := calls - {row.id};
    } else if row.dir == Out && (row.body.Steer? || row.body.Start?) && row.id !in accepted {
      return;
    } else if row.dir == Out && row.body.Steer? {
      steers := steers[row.body.client := row.body.input];
    } else if row.dir == Out && row.body.Start? {
      more := OfStart(sc, row.body.input, row.ts);
    }
  }

  lemma {:induction false} PassStep(sc: Scope, rows: seq<Row>, i: nat, calls: map<Id, string>, steers: map<string, string>, done: string)
    requires i < |rows| && CallsAgree(sc, rows, i, calls) && SteersAgree(sc, rows, i, steers) && DoneAgrees(sc, rows, i, done)
    ensures MeaningWith(sc, rows[i], Accepted(rows), calls, steers, done) == Meaning(sc, rows, i)
    ensures CallsAgree(sc, rows, i + 1, NextCalls(sc, rows[i], calls))
    ensures SteersAgree(sc, rows, i + 1, NextSteers(sc, rows[i], Accepted(rows), steers))
  {
    var row := rows[i];
    CallsStep(sc, rows, i, calls);
    SteersStep(sc, rows, i, steers);
    assert PendingCall(sc, rows, i, row.id) == At(calls, row.id);
    assert row.body.UserMessage? ==> SteerText(sc, rows, i, row.body.client) == At(steers, row.body.client);
  }

  /** The whole single pass: it gives exactly the meaning of every row, looking back. */
  method Capture(sc: Scope, rows: seq<Row>) returns (r: Result<seq<Event>, Error>)
    ensures r == if Reference(sc, rows, |rows|) == [] then Raised(NoEvents) else Ok(Reference(sc, rows, |rows|))
  {
    var out: seq<Event> := [];
    var calls: map<Id, string> := map[];
    var lastDone := "";
    var steers: map<string, string> := map[];
    var accepted := Accepted(rows);
    for i := 0 to |rows|
      invariant out == Reference(sc, rows, i)
      invariant CallsAgree(sc, rows, i, calls)
      invariant SteersAgree(sc, rows, i, steers)
      invariant DoneAgrees(sc, rows, i, lastDone)
    {
      PassStep(sc, rows, i, calls, steers, lastDone);
      var more;
      more, calls, steers, lastDone := CaptureRow(sc, rows[i], accepted, calls, steers, lastDone);
      out := out + more;
    }
    if out == [] {
      return Raised(NoEvents);
    }
    return Ok(out);
  }

  // ---------------------------------------------------------------- provenance

  /** Event `e` came from the answer to a tool call of row `i`. */
  ghost predicate FromAnswer(sc: Scope, rows: seq<Row>, i: nat, e: Event)
    requires i < |rows| && e.Attached?
  {
    && Inside(sc, rows[i]) && rows[i].dir == Out && rows[i].body.Answer?
    && PendingCall(sc, rows, i, rows[i].id) == Some(e.to) && e.text in Appended(rows[i].body.text)
  }

  /** Event `e` was shown to the model by row `i` and sent by row `j`. */
  ghost predicate FromSteer(sc: Scope, rows: seq<Row>, i: nat, j: nat, e: Event)
    requires e.Attached?
  {
    && j < i < |rows| && rows[j].body.Steer? && Witnesses(sc, rows, i, rows[j].body.client) && Steers(sc, rows, j, rows[j].body.client)
    && PendingSteer(sc, rows, i, rows[j].body.client) == Some(j)
    && e.text in Blocks(rows[j].body.input, "\n\n") && e.ts == rows[i].ts
    && (match LastDone(sc, rows, i) case None => e.to == "?" case Some(name) => e.to == name)
  }

  ghost predicate Backed(sc: Scope, rows: seq<Row>, i: nat, e: Event)
    requires i < |rows| && e.Attached?
  {
    FromAnswer(sc, rows, i, e) || exists j :: FromSteer(sc, rows, i, j, e)
  }

  lemma {:induction false} MeaningIsBacked(sc: Scope, rows: seq<Row>, i: nat, e: Event)
    requires i < |rows| && e in Meaning(sc, rows, i) && e.Attached?
    ensures Backed(sc, rows, i, e)
  {
    var row := rows[i];
    if row.body.UserMessage? && row.dir == In {
      var j := PendingSteer(sc, rows, i, row.body.client).value;
      assert FromSteer(sc, rows, i, j, e);
    }
  }

  /** Main result: every attached notification was appended to a tool's answer, or was sent by an earlier
      accepted steer with the client id of the message that shows it; it names the item finished last. */
  lemma {:induction false} AttachedIsBacked(sc: Scope, rows: seq<Row>, k: nat, e: Event)
    requires k <= |rows| && e in Reference(sc, rows, k) && e.Attached?
    ensures exists i | 0 <= i < k :: Backed(sc, rows, i, e)
  {
    var i := RowOfEvent(sc, rows, k, e);
    MeaningIsBacked(sc, rows, i, e);
  }

  lemma {:induction false} RowOfEvent(sc: Scope, rows: seq<Row>, k: nat, e: Event) returns (i: nat)
    requires k <= |rows| && e in Reference(sc, rows, k)
    ensures i < k && e in Meaning(sc, rows, i)
  {
    var front := Reference(sc, rows, k - 1);
    if e in front {
      i := RowOfEvent(sc, rows, k - 1, e);
    } else {
      i := k - 1;
      assert Reference(sc, rows, k) == front + Meaning(sc, rows, i);
    }
  }

  /** A steer is spent at most once: no two messages show the same one. */
  lemma {:induction false} SpentOnce(sc: Scope, rows: seq<Row>, i1: nat, i2: nat, j: nat, e1: Event, e2: Event)
    requires e1.Attached? && e2.Attached? && FromSteer(sc, rows, i1, j, e1) && FromSteer(sc, rows, i2, j, e2)
    ensures i1 == i2
  {
    var c := rows[j].body.client;
    assert i1 < i2 ==> Witnesses(sc, rows, i1, c);
    assert i2 < i1 ==> Witnesses(sc, rows, i2, c);
  }

  // ---------------------------------------------------------------- the case filter

  function FirstLine(s: string): string {
    if s == "" || s[0] == '\n' then "" else [s[0]] + FirstLine(s[1..])
  }

  /** The task ids named in a text: by the pattern of results and by the pattern of notifications. */
  datatype Ids = Ids(inResult: string -> set<string>, inNote: string -> set<string>)

  function Tasks(x: Ids, trace: seq<Event>): set<string> {
    set e, t | e in trace && e.ToolResult? && e.tool == "Monitor" && t in x.inResult(e.text) :: t
  }

  function Prompts(trace: seq<Event>): set<string> {
    set e | e in trace && e.ToolUse? && e.tool == "CronCreate" :: e.prompt
  }

  predicate Kept(x: Ids, tasks: set<string>, prompts: set<string>, e: Event) {
    match e
    case Standalone(text, _) => x.inNote(text) * tasks != {}
    case Attached(text, _, _) => x.inNote(text) * tasks != {}
    case CronFire(text, _) => FirstLine(text) in prompts
    case _ => true
  }

  function Filter(x: Ids, tasks: set<string>, prompts: set<string>, trace: seq<Event>): seq<Event> {
    if trace == [] then []
    else
      Filter(x, tasks, prompts, trace[..|trace| - 1]) +
      if Kept(x, tasks, prompts, trace[|trace| - 1]) then [trace[|trace| - 1]] else []
  }

  function CaseOnlyOf(x: Ids, trace: seq<Event>): seq<Event> {
    Filter(x, Tasks(x, trace), Prompts(trace), trace)
  }

  method CaseOnly(x: Ids, trace: seq<Event>) returns (out: seq<Event>)
    ensures out == CaseOnlyOf(x, trace)
  {
    var tasks: set<string>, prompts: set<string> := {}, {};
    for i := 0 to |trace|
      invariant tasks == Tasks(x, trace[..i]) && prompts == Prompts(trace[..i])
    {
      var e := trace[i];
      assert trace[..i + 1] == trace[..i] + [e];
      if e.ToolResult? && e.tool == "Monitor" {
        tasks := tasks + x.inResult(e.text);
      }
      if e.ToolUse? && e.tool == "CronCreate" {
        prompts := prompts + {e.prompt};
      }
    }
    assert trace[..|trace|] == trace;
    out := [];
    for i := 0 to |trace|
      invariant out == Filter(x, tasks, prompts, trace[..i])
    {
      var e := trace[i];
      assert trace[..i + 1][..i] == trace[..i];
      match e {
        case Standalone(text, _) =>
          if x.inNote(text) * tasks == {} {
            continue;
          }
        case Attached(text, _, _) =>
          if x.inNote(text) * tasks == {} {
            continue;
          }
        case CronFire(text, _) =>
          if FirstLine(text) !in prompts {
            continue;
          }
        case _ =>
      }
      out := out + [e];
    }
    assert trace[..|trace|] == trace;
  }

  lemma {:induction false} FilterMembers(x: Ids, tasks: set<string>, prompts: set<string>, trace: seq<Event>)
    ensures forall e :: e in Filter(x, tasks, prompts, trace) <==> e in trace && Kept(x, tasks, prompts, e)
  {
    if trace != [] {
      var front := trace[..|trace| - 1];
      FilterMembers(x, tasks, prompts, front);
      assert trace == front + [trace[|trace| - 1]];
    }
  }

  lemma {:induction false} FilterAll(x: Ids, tasks: set<string>, prompts: set<string>, trace: seq<Event>)
    requires forall e | e in trace :: Kept(x, tasks, prompts, e)
    ensures Filter(x, tasks, prompts, trace) == trace
  {
    if trace != [] {
      var front, last := trace[..|trace| - 1], trace[|trace| - 1];
      assert last in trace;
      forall e | e in front ensures Kept(x, tasks, prompts, e) {
        assert e in trace;
      }
      FilterAll(x, tasks, prompts, front);
      assert trace == front + [last];
    }
  }

  /** Filtering a filtered trace changes nothing, whatever the id patterns find. */
  lemma {:induction false} CaseOnlyIdempotent(x: Ids, trace: seq<Event>)
    ensures CaseOnlyOf(x, CaseOnlyOf(x, trace)) == CaseOnlyOf(x, trace)
    ensures forall e :: e in CaseOnlyOf(x, trace) <==> e in trace && Kept(x, Tasks(x, trace), Prompts(trace), e)
  {
    var tasks, prompts, once := Tasks(x, trace), Prompts(trace), CaseOnlyOf(x, trace);
    FilterMembers(x, tasks, prompts, trace);
    assert Tasks(x, once) == tasks;
    assert Prompts(once) == prompts;
    FilterAll(x, tasks, prompts, once);
  }
}
