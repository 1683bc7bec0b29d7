/**
  The broker's durable inbox store.  Every recipient's mail is appended to a file; recipients share
  files because `:` becomes `_` in file names, references are resolved through an alias map, and a
  file can hold torn lines.  `log` is the specification: the readable messages in the one order in
  which they were appended, across all files.
 */
module InboxStore {
  import opened Options

  type Ts = int                    // microseconds

  /** `body` stands for the rest of the envelope.  `splits`: its text holds a character at which
      the reader's line splitting breaks although the writer does not escape it, such as U+2028. */
  datatype Msg = Msg(to: string, ts: Ts, body: int, splits: bool)

  datatype Line = Good(msg: Msg) | Torn | Blank

  /** `dangling`: the last line has no newline, so the next append lands on it. */
  datatype File = File(lines: seq<Line>, dangling: bool)

  datatype Entry = Entry(msg: Msg, file: string)

  datatype Error = BadRecipient

  type Aliases = map<string, string>

  // ---------------------------------------------------------------- names

  predicate NameChar(c: char) {
    'A' <= c <= 'Z' || 'a' <= c <= 'z' || '0' <= c <= '9' || c in "._:-"
  }

  /** `^[A-Za-z0-9._:-]{1,128}$`; the `$` also matches before one final newline. */
  predicate ValidRecipient(s: string) {
    var core := if |s| > 0 && s[|s| - 1] == '\n' then s[..|s| - 1] else s;
    1 <= |core| <= 128 && forall c | c in core :: NameChar(c)
  }

  function Safe(s: string): (r: string)
    ensures |r| == |s|
  {
    seq(|s|, i requires 0 <= i < |s| => if s[i] == ':' then '_' else s[i])
  }

  /** Two names share a file exactly when they differ only in where one has a colon and the other an
      underscore. */
  lemma {:induction false} SharedFileExactly(a: string, b: string)
    ensures Safe(a) == Safe(b) <==>
              |a| == |b| && forall i | 0 <= i < |a| :: a[i] == b[i] || (a[i] in ":_" && b[i] in ":_")
  {
    if Safe(a) == Safe(b) {
      forall i | 0 <= i < |a| ensures a[i] == b[i] || (a[i] in ":_" && b[i] in ":_") {
        assert Safe(a)[i] == Safe(b)[i];
      }
    }
  }

  /** The file name of a valid recipient cannot lead out of the directory. */
  lemma {:induction false} SafeStaysInside(r: string)
    requires ValidRecipient(r)
    ensures 1 <= |Safe(r)| <= 129
    ensures forall c | c in Safe(r) :: c != '/' && c != '\\' && c != ':' && c != ' '
  {
    forall i | 0 <= i < |r| ensures NameChar(r[i]) || r[i] == '\n' {
      assert i < |r| - 1 ==> r[i] == r[..|r| - 1][i];
    }
    forall c | c in Safe(r) ensures c != '/' && c != '\\' && c != ':' && c != ' ' {
      var i :| 0 <= i < |r| && Safe(r)[i] == c;
    }
  }

  /** Every plain name is a recipient. */
  lemma {:induction false} PlainNamesAreValid(r: string)
    requires 1 <= |r| <= 128
    requires forall c | c in r :: 'A' <= c <= 'Z' || 'a' <= c <= 'z' || '0' <= c <= '9' || c == '.' || c == '_' || c == ':' || c == '-'
    ensures ValidRecipient(r)
  {
    assert r[|r| - 1] in r;
  }

  function Resolve(a: Aliases, r: string): Option<string> {
    if r in a then Some(a[r]) else if '/' in r then None else Some(r)
  }

  /** `resolve(r) or r`: an unmapped reference, or one mapped to the empty name, stands for itself. */
  function Dest(a: Aliases, r: string): string {
    match Resolve(a, r)
    case Some(t) => if t == "" then r else t
    case None => r
  }

  // ---------------------------------------------------------------- files

  /** The readable messages of a file, in file order. */
  function Goods(lines: seq<Line>): seq<Msg> {
    if lines == [] then []
    else Goods(lines[..|lines| - 1]) + (if lines[|lines| - 1].Good? then [lines[|lines| - 1].msg] else [])
  }

  function TailTs(lines: seq<Line>): Option<Ts> {
    var g := Goods(lines);
    if g == [] then None else Some(g[|g| - 1].ts)
  }

  /** How much of a line reaches the disk. */
  datatype Cut = Nothing | Partly | AllButNewline | Whole

  /** The lines that writing `m` produces. */
  function Text(m: Msg, cut: Cut): (text: seq<Line>)
    requires cut != Nothing
    ensures |text| > 0
  {
    if cut == Partly then [Torn] else if m.splits then [Torn, Torn] else [Good(m)]
  }

  predicate Open(f: File) {
    f.dangling && |f.lines| > 0
  }

  /** The file after `m` has been written onto its end, cut short or not. */
  function Written(f: File, m: Msg, cut: Cut): File {
    if cut == Nothing then f
    else
      File(if Open(f) then f.lines[..|f.lines| - 1] + ([Torn] + Text(m, cut)[1..]) else f.lines + Text(m, cut),
           cut != Whole)
  }

  /** The broker's stamp: a message never lands at or before the newest one of its file. */
  function Stamp(m: Msg, prev: Option<Ts>): Msg {
    if prev.Some? && m.ts <= prev.value then m.(ts := prev.value + 1) else m
  }

  predicate Increasing(g: seq<Msg>) {
    forall i, j | 0 <= i < j < |g| :: g[i].ts < g[j].ts
  }

  // ---------------------------------------------------------------- the log

  function Of(log: seq<Entry>, file: string): seq<Msg> {
    if log == [] then []
    else Of(log[..|log| - 1], file) + (if log[|log| - 1].file == file then [log[|log| - 1].msg] else [])
  }

  /** The log without its last entry in `file`. */
  function WithoutLast(log: seq<Entry>, file: string): seq<Entry> {
    if log == [] then []
    else if log[|log| - 1].file == file then log[..|log| - 1]
    else WithoutLast(log[..|log| - 1], file) + [log[|log| - 1]]
  }

  /** What writing `m` to `file` does to the log: a newline missing from the file costs the new message
      and, if it was readable, the unterminated one. */
  function Logged(log: seq<Entry>, f: File, file: string, m: Msg, cut: Cut): seq<Entry> {
    if cut == Nothing then log
    else if Open(f) then
      if f.lines[|f.lines| - 1].Good? then WithoutLast(log, file) else log
    else if cut == Partly || m.splits then log
    else log + [Entry(m, file)]
  }

  predicate Wanted(a: Aliases, m: Msg, recipient: string, since: Option<Ts>) {
    Dest(a, m.to) == recipient && (since == None || m.ts > since.value)
  }

  function Select(a: Aliases, g: seq<Msg>, recipient: string, since: Option<Ts>): seq<Msg> {
    if g == [] then []
    else Select(a, g[..|g| - 1], recipient, since) + (if Wanted(a, g[|g| - 1], recipient, since) then [g[|g| - 1]] else [])
  }

  /** The messages of the whole log for one destination, newer than the cursor, in append order. */
  function Mail(a: Aliases, log: seq<Entry>, recipient: string, since: Option<Ts>): seq<Msg> {
    if log == [] then []
    else Mail(a, log[..|log| - 1], recipient, since)
         + (if Wanted(a, log[|log| - 1].msg, recipient, since) then [log[|log| - 1].msg] else [])
  }

  /** Every entry lies in the file its destination reads. */
  predicate Placed(a: Aliases, log: seq<Entry>) {
    forall i | 0 <= i < |log| :: log[i].file == Safe(Dest(a, log[i].msg.to))
  }

  // ---------------------------------------------------------------- lemmas

  lemma {:induction false} GoodsAppend(a: seq<Line>, b: seq<Line>)
    ensures Goods(a + b) == Goods(a) + Goods(b)
    decreases |b|
  {
    if b == [] {
      assert a + b == a;
    } else {
      var c := a + b;
      assert c[..|c| - 1] == a + b[..|b| - 1];
      GoodsAppend(a, b[..|b| - 1]);
    }
  }

  lemma {:induction false} SelectAppend(a: Aliases, g: seq<Msg>, h: seq<Msg>, recipient: string, since: Option<Ts>)
    ensures Select(a, g + h, recipient, since) == Select(a, g, recipient, since) + Select(a, h, recipient, since)
    decreases |h|
  {
    if h == [] {
      assert g + h == g;
    } else {
      var c := g + h;
      assert c[..|c| - 1] == g + h[..|h| - 1];
      SelectAppend(a, g, h[..|h| - 1], recipient, since);
    }
  }

  lemma {:induction false} SelectPush(a: Aliases, g: seq<Msg>, m: Msg, recipient: string, since: Option<Ts>)
    ensures Select(a, g + [m], recipient, since)
         == Select(a, g, recipient, since) + (if Wanted(a, m, recipient, since) then [m] else [])
  {
    assert (g + [m])[..|g|] == g;
  }

  lemma {:induction false} GoodsPush(lines: seq<Line>, i: nat)
    requires i < |lines|
    ensures Goods(lines[..i + 1]) == Goods(lines[..i]) + (if lines[i].Good? then [lines[i].msg] else [])
  {
    assert lines[..i + 1][..i] == lines[..i];
  }

  /** Dropping the last entry of a file drops the last message of that file and nothing else. */
  lemma {:induction false} WithoutLastOf(log: seq<Entry>, file: string, other: string)
    ensures var w := WithoutLast(log, file);
            Of(w, other) == if other == file && Of(log, file) != [] then Of(log, file)[..|Of(log, file)| - 1] else Of(log, other)
  {
    if log != [] {
      var front, last := log[..|log| - 1], log[|log| - 1];
      if last.file != file {
        WithoutLastOf(front, file, other);
        var w := WithoutLast(front, file);
        assert (w + [last])[..|w|] == w;
      }
    }
  }

  lemma {:induction false} NoGoods(lines: seq<Line>)
    requires forall l | l in lines :: !l.Good?
    ensures Goods(lines) == []
  {
    if lines != [] {
      assert lines[|lines| - 1] in lines;
      NoGoods(lines[..|lines| - 1]);
    }
  }

  /** What a write leaves readable: on an open line nothing new, and the line itself is spoiled. */
  function GoodsAfter(f: File, m: Msg, cut: Cut): seq<Msg> {
    var g := Goods(f.lines);
    if cut == Nothing then g
    else if Open(f) then if f.lines[|f.lines| - 1].Good? then g[..|g| - 1] else g
    else if cut == Partly || m.splits then g
    else g + [m]
  }

  lemma {:induction false} WrittenOnOpen(f: File, m: Msg, cut: Cut)
    requires Open(f) && cut != Nothing
    ensures Goods(Written(f, m, cut).lines) == GoodsAfter(f, m, cut)
  {
    var front, back := f.lines[..|f.lines| - 1], [Torn] + Text(m, cut)[1..];
    GoodsAppend(front, back);
    NoGoods(back);
    assert Goods(front) + [] == Goods(front);
    assert Goods(front) == GoodsAfter(f, m, cut);
  }

  lemma {:induction false} WrittenOnEnd(f: File, m: Msg, cut: Cut)
    requires !Open(f) && cut != Nothing
    ensures Goods(Written(f, m, cut).lines) == GoodsAfter(f, m, cut)
  {
    GoodsAppend(f.lines, Text(m, cut));
    if cut == Partly || m.splits {
      NoGoods(Text(m, cut));
    } else {
      assert [Good(m)][..0] == [] && Goods([Good(m)]) == [m];
    }
  }

  lemma {:induction false} WrittenGoods(f: File, m: Msg, cut: Cut)
    ensures Goods(Written(f, m, cut).lines) == GoodsAfter(f, m, cut)
  {
    if cut != Nothing {
      if Open(f) {
        WrittenOnOpen(f, m, cut);
      } else {
        WrittenOnEnd(f, m, cut);
      }
    }
  }

  lemma {:induction false} OfPush(log: seq<Entry>, e: Entry, file: string)
    ensures Of(log + [e], file) == Of(log, file) + if e.file == file then [e.msg] else []
  {
    assert (log + [e])[..|log|] == log;
  }

  /** One write keeps every file in step with the log. */
  lemma {:induction false} WriteLogged(log: seq<Entry>, f: File, file: string, m: Msg, cut: Cut, other: string)
    requires Goods(f.lines) == Of(log, file)
    ensures var after := Logged(log, f, file, m, cut);
            && (other == file ==> Goods(Written(f, m, cut).lines) == Of(after, other))
            && (other != file ==> Of(after, other) == Of(log, other))
  {
    WrittenGoods(f, m, cut);
    if cut != Nothing && Open(f) {
      WithoutLastOf(log, file, other);
    } else {
      OfPush(log, Entry(m, file), other);
    }
  }

  /** The entries of one file that a reader of `recipient` gets. */
  function MailIn(a: Aliases, log: seq<Entry>, file: string, recipient: string, since: Option<Ts>): seq<Msg> {
    if log == [] then []
    else MailIn(a, log[..|log| - 1], file, recipient, since)
         + (if log[|log| - 1].file == file && Wanted(a, log[|log| - 1].msg, recipient, since) then [log[|log| - 1].msg] else [])
  }

  lemma {:induction false} SelectOf(a: Aliases, log: seq<Entry>, file: string, recipient: string, since: Option<Ts>)
    ensures Select(a, Of(log, file), recipient, since) == MailIn(a, log, file, recipient, since)
  {
    if log != [] {
      var front, last := log[..|log| - 1], log[|log| - 1];
      SelectOf(a, front, file, recipient, since);
      if last.file == file {
        SelectPush(a, Of(front, file), last.msg, recipient, since);
      } else {
        assert Of(log, file) == Of(front, file);
      }
    }
  }

  /** When every entry lies where its destination reads, sharing a file is invisible: one file's mail
      for a recipient is the whole log's mail for it. */
  lemma {:induction false} SharingInvisible(a: Aliases, log: seq<Entry>, recipient: string, since: Option<Ts>)
    requires Placed(a, log)
    ensures MailIn(a, log, Safe(recipient), recipient, since) == Mail(a, log, recipient, since)
  {
    if log != [] {
      SharingInvisible(a, log[..|log| - 1], recipient, since);
    }
  }

  /** Every read, of any name from any time, gives all the mail for it. */
  ghost predicate NothingHidden(a: Aliases, log: seq<Entry>) {
    forall r: string, since: Option<Ts> :: MailIn(a, log, Safe(r), r, since) == Mail(a, log, r, since)
  }

  /** Reads are whole if and only if every entry lies where its destination reads. */
  lemma {:induction false} PlacedExactly(a: Aliases, log: seq<Entry>)
    ensures NothingHidden(a, log) <==> Placed(a, log)
  {
    if Placed(a, log) {
      forall r: string, since: Option<Ts> ensures MailIn(a, log, Safe(r), r, since) == Mail(a, log, r, since) {
        SharingInvisible(a, log, r, since);
      }
    } else {
      var i :| 0 <= i < |log| && log[i].file != Safe(Dest(a, log[i].msg.to));
      var r := Dest(a, log[i].msg.to);
      MisplacedIsHidden(a, log, i, None);
      assert |MailIn(a, log, Safe(r), r, None)| < |Mail(a, log, r, None)|;
    }
  }

  lemma {:induction false} FewerInOneFile(a: Aliases, log: seq<Entry>, file: string, recipient: string, since: Option<Ts>)
    ensures |MailIn(a, log, file, recipient, since)| <= |Mail(a, log, recipient, since)|
  {
    if log != [] {
      FewerInOneFile(a, log[..|log| - 1], file, recipient, since);
    }
  }

  /** A misplaced message is missing from every read that should have given it. */
  lemma {:induction false} MisplacedIsHidden(a: Aliases, log: seq<Entry>, i: nat, since: Option<Ts>)
    requires i < |log| && log[i].file != Safe(Dest(a, log[i].msg.to)) && Wanted(a, log[i].msg, Dest(a, log[i].msg.to), since)
    ensures var r := Dest(a, log[i].msg.to); |MailIn(a, log, Safe(r), r, since)| < |Mail(a, log, r, since)|
  {
    var r := Dest(a, log[i].msg.to);
    if i == |log| - 1 {
      FewerInOneFile(a, log[..i], Safe(r), r, since);
    } else {
      MisplacedIsHidden(a, log[..|log| - 1], i, since);
    }
  }

  lemma {:induction false} OfMember(log: seq<Entry>, file: string, m: Msg)
    requires m in Of(log, file)
    ensures exists i | 0 <= i < |log| :: log[i] == Entry(m, file)
  {
    var front, last := log[..|log| - 1], log[|log| - 1];
    if last == Entry(m, file) {
    } else {
      OfMember(front, file, m);
      var i :| 0 <= i < |front| && front[i] == Entry(m, file);
      assert log[i] == Entry(m, file);
    }
  }

  lemma {:induction false} TailBoundsAll(g: seq<Msg>)
    requires Increasing(g)
    ensures g != [] ==> forall i | 0 <= i < |g| :: g[i].ts <= g[|g| - 1].ts
  {
    forall i | 0 <= i < |g| ensures g[i].ts <= g[|g| - 1].ts {
      if i < |g| - 1 {
        assert g[i].ts < g[|g| - 1].ts;
      }
    }
  }

  // ---------------------------------------------------------------- the store

  function FileAt(files: map<string, File>, f: string): File {
    if f in files then files[f] else File([], false)
  }

  function CachedAt(lastTs: map<string, Ts>, f: string): Option<Ts> {
    if f in lastTs then Some(lastTs[f]) else None
  }

  ghost predicate Bounds(prev: Option<Ts>, g: seq<Msg>) {
    prev.Some? && forall m | m in g :: m.ts <= prev.value
  }

  /** One file follows the log, its times strictly increase, and a cached time bounds them. */
  ghost predicate FileOk(log: seq<Entry>, f: string, file: File, cached: Option<Ts>) {
    && Goods(file.lines) == Of(log, f)
    && Increasing(Of(log, f))
    && (cached.Some? ==> Bounds(cached, Of(log, f)))
  }

  ghost predicate Synced(log: seq<Entry>, files: map<string, File>, lastTs: map<string, Ts>) {
    forall f: string :: FileOk(log, f, FileAt(files, f), CachedAt(lastTs, f))
  }

  /** A write changes the log of its file only by its own message at the end, or by losing the last one. */
  lemma {:induction false} LoggedGrows(log: seq<Entry>, was: File, f: string, m: Msg, cut: Cut)
    ensures var g, h := Of(log, f), Of(Logged(log, was, f, m, cut), f);
            h == g || h == g + [m] || (g != [] && h == g[..|g| - 1])
  {
    WithoutLastOf(log, f, f);
    assert (log + [Entry(m, f)])[..|log|] == log;
  }

  /** A file that gains a later message, or loses its last one, still has increasing times. */
  lemma {:induction false} IncreasingGrows(g: seq<Msg>, h: seq<Msg>, m: Msg)
    requires Increasing(g) && forall x | x in g :: x.ts < m.ts
    requires h == g || h == g + [m] || (g != [] && h == g[..|g| - 1])
    ensures Increasing(h)
    ensures forall x | x in h :: x in g || x == m
    ensures Bounds(Some(m.ts), h)
  {
    forall i, j | 0 <= i < j < |h| ensures h[i].ts < h[j].ts {
      assert h[i] == g[i];
      assert h[j] == if j < |g| then g[j] else m;
      assert g[i] in g;
    }
  }

  /** Stamping past the tail keeps the times of the file increasing, whatever part reaches the disk. */
  lemma {:induction false} PutKeepsFile(log: seq<Entry>, was: File, f: string, m: Msg, cut: Cut, prev: Option<Ts>)
    requires FileOk(log, f, was, None)
    requires Of(log, f) != [] ==> Bounds(prev, Of(log, f))
    ensures var stamped := Stamp(m, prev);
            FileOk(Logged(log, was, f, stamped, cut), f, Written(was, stamped, cut), Some(stamped.ts))
  {
    var stamped := Stamp(m, prev);
    WriteLogged(log, was, f, stamped, cut, f);
    LoggedGrows(log, was, f, stamped, cut);
    IncreasingGrows(Of(log, f), Of(Logged(log, was, f, stamped, cut), f), stamped);
  }

  lemma {:induction false} CacheSynced(log: seq<Entry>, files: map<string, File>, lastTs: map<string, Ts>, f: string, ts: Ts)
    requires Synced(log, files, lastTs) && (Of(log, f) != [] ==> Bounds(Some(ts), Of(log, f)))
    ensures Synced(log, files, lastTs[f := ts])
  {
    forall g: string ensures FileOk(log, g, FileAt(files, g), CachedAt(lastTs[f := ts], g)) {
      assert FileOk(log, g, FileAt(files, g), CachedAt(lastTs, g));
    }
  }

  lemma {:induction false} PutSynced(log: seq<Entry>, files: map<string, File>, lastTs: map<string, Ts>, f: string, m: Msg, cut: Cut, prev: Option<Ts>)
    requires Synced(log, files, lastTs) && (Of(log, f) != [] ==> Bounds(prev, Of(log, f)))
    ensures var was, stamped := FileAt(files, f), Stamp(m, prev);
            Synced(Logged(log, was, f, stamped, cut), files[f := Written(was, stamped, cut)], lastTs[f := stamped.ts])
  {
    var was, stamped := FileAt(files, f), Stamp(m, prev);
    var after := Logged(log, was, f, stamped, cut);
    assert FileOk(log, f, was, CachedAt(lastTs, f));
    PutKeepsFile(log, was, f, m, cut, prev);
    var files', lastTs' := files[f := Written(was, stamped, cut)], lastTs[f := stamped.ts];
    forall g: string ensures FileOk(after, g, FileAt(files', g), CachedAt(lastTs', g)) {
      if g == f {
        assert FileAt(files', g) == Written(was, stamped, cut) && CachedAt(lastTs', g) == Some(stamped.ts);
      } else {
        assert FileOk(log, g, FileAt(files, g), CachedAt(lastTs, g));
        assert FileAt(files', g) == FileAt(files, g) && CachedAt(lastTs', g) == CachedAt(lastTs, g);
        WriteLogged(log, was, f, stamped, cut, g);
      }
    }
  }

  class Inboxes {
    var aliases: Aliases
    var files: map<string, File>
    var lastTs: map<string, Ts>
    ghost var log: seq<Entry>

    constructor ()
      ensures Valid() && log == [] && aliases == map[] && Placed(aliases, log)
    {
      aliases, files, lastTs, log := map[], map[], map[], [];
    }

    ghost predicate Valid()
      reads this
    {
      Synced(log, files, lastTs)
    }

    /** The time of the last line that can be read. */
    static method LastReadable(lines: seq<Line>) returns (prev: Option<Ts>)
      ensures prev == TailTs(lines)
    {
      prev := None;
      for i := 0 to |lines|
        invariant prev == TailTs(lines[..i])
      {
        GoodsPush(lines, i);
        if lines[i].Good? {
          prev := Some(lines[i].msg.ts);
        }
      }
      assert lines[..|lines|] == lines;
    }

    /** The time to stay ahead of: cached, or read off the file's last readable line. */
    method TailOf(f: string) returns (prev: Option<Ts>)
      requires Valid()
      modifies this`lastTs
      ensures Valid()
      ensures prev == if f in old(lastTs) then Some(old(lastTs)[f]) else TailTs(FileAt(files, f).lines)
      ensures Of(log, f) != [] ==> Bounds(prev, Of(log, f))
      ensures lastTs == if prev.Some? then old(lastTs)[f := prev.value] else old(lastTs)
    {
      assert FileOk(log, f, FileAt(files, f), CachedAt(lastTs, f));
      if f in lastTs {
        assert lastTs == lastTs[f := lastTs[f]];
        return Some(lastTs[f]);
      }
      if f !in files {
        return None;
      }
      prev := LastReadable(files[f].lines);
      if prev.Some? {
        TailBoundsAll(Of(log, f));
        CacheSynced(log, files, lastTs, f, prev.value);
        lastTs := lastTs[f := prev.value];
      }
    }

    /** Tail, stamp, cache and write, as one critical section. */
    method Put(m: Msg, f: string, cut: Cut) returns (stamped: Msg)
      requires Valid()
      modifies this`files, this`lastTs, this`log
      ensures Valid()
      ensures stamped == m.(ts := stamped.ts) && stamped.ts >= m.ts
      ensures forall x | x in Of(old(log), f) :: x.ts < stamped.ts
      ensures f !in old(lastTs) && (forall x | x in Of(old(log), f) :: x.ts < m.ts) ==> stamped == m
      ensures log == Logged(old(log), FileAt(old(files), f), f, stamped, cut)
      ensures files == old(files)[f := Written(FileAt(old(files), f), stamped, cut)]
    {
      var prev := TailOf(f);
      stamped := Stamp(m, prev);
      PutSynced(log, files, lastTs, f, m, cut, prev);
      ghost var was := FileAt(files, f);
      lastTs := lastTs[f := stamped.ts];
      files := files[f := Written(FileAt(files, f), stamped, cut)];
      log := Logged(log, was, f, stamped, cut);
    }

    /** Publishes a message.  It can be read afterwards if and only if the file ended in a newline and
        the text does not split; the alias map and the other recipients' mail are untouched. */
    method Append(m: Msg) returns (r: Result<Msg, Error>)
      requires Valid()
      modifies this`files, this`lastTs, this`log
      ensures Valid()
      ensures r.Raised? <==> Resolve(aliases, m.to) == None || !ValidRecipient(Resolve(aliases, m.to).value)
      ensures r.Raised? ==> log == old(log) && files == old(files)
      ensures r.Ok? ==>
                var f := Safe(Dest(aliases, m.to));
                && r.value == m.(ts := r.value.ts) && r.value.ts >= m.ts
                && (forall x | x in Of(old(log), f) :: x.ts < r.value.ts)
                && log == Logged(old(log), FileAt(old(files), f), f, r.value, Whole)
                && (log == old(log) + [Entry(r.value, f)] <==> !Open(FileAt(old(files), f)) && !m.splits)
      ensures old(Placed(aliases, log)) ==> Placed(aliases, log)
    {
      var target := Resolve(aliases, m.to);
      if target == None || !ValidRecipient(target.value) {
        return Raised(BadRecipient);
      }
      var f := Safe(target.value);
      var stamped := Put(m, f, Whole);
      WithoutLastShrinks(old(log), f);
      StaysPlaced(aliases, old(log), FileAt(old(files), f), f, stamped, Whole);
      return Ok(stamped);
    }

    /** The broker dies while appending: any part of the line may be on disk, and the cache is gone. */
    method AppendAndDie(m: Msg, cut: Cut)
      requires Valid()
      modifies this`files, this`lastTs, this`log
      ensures Valid() && lastTs == map[]
      ensures old(Placed(aliases, log)) ==> Placed(aliases, log)
    {
      var target := Resolve(aliases, m.to);
      if target.Some? && ValidRecipient(target.value) {
        var f := Safe(target.value);
        var stamped := Put(m, f, cut);
        StaysPlaced(aliases, old(log), FileAt(old(files), f), f, stamped, cut);
      }
      ghost var cached := lastTs;
      lastTs := map[];
      assert forall f: string :: FileOk(log, f, FileAt(files, f), CachedAt(cached, f)) ==> FileOk(log, f, FileAt(files, f), CachedAt(lastTs, f));
    }

    /** Registers an alias.  Reads go on giving all older mail exactly when what was sent to that name
        lies in the file the name now leads to. */
    method PutAlias(alias: string, target: string)
      requires Valid()
      modifies this`aliases
      ensures Valid() && aliases == old(aliases)[alias := target]
      ensures old(Placed(aliases, log)) ==>
                (NothingHidden(aliases, log) <==>
                   forall i | 0 <= i < |log| && log[i].msg.to == alias :: log[i].file == Safe(if target == "" then alias else target))
    {
      aliases := aliases[alias := target];
      assert forall r | r != alias :: Dest(aliases, r) == Dest(old(aliases), r);
      PlacedExactly(aliases, log);
    }

    /** The mail for a recipient newer than the cursor.  With nothing hidden, it is the global
        append order filtered by destination and cursor, whoever shares the file. */
    method Read(name: string, since: Option<Ts>) returns (r: Result<seq<Msg>, Error>)
      requires Valid()
      ensures r.Raised? <==> !ValidRecipient(Dest(aliases, name))
      ensures r.Ok? ==> r.value == MailIn(aliases, log, Safe(Dest(aliases, name)), Dest(aliases, name), since)
      ensures r.Ok? && NothingHidden(aliases, log) ==> r.value == Mail(aliases, log, Dest(aliases, name), since)
      ensures r.Ok? ==> Increasing(r.value)
    {
      var recipient := Dest(aliases, name);
      if !ValidRecipient(recipient) {
        return Raised(BadRecipient);
      }
      var f := Safe(recipient);
      assert FileOk(log, f, FileAt(files, f), CachedAt(lastTs, f));
      SelectOf(aliases, log, f, recipient, since);
      SelectIncreasing(aliases, Of(log, f), recipient, since);
      if f !in files {
        return Ok([]);
      }
      var out := [];
      var lines := files[f].lines;
      for i := 0 to |lines|
        invariant out == Select(aliases, Goods(lines[..i]), recipient, since)
      {
        GoodsPush(lines, i);
        assert !lines[i].Good? ==> Goods(lines[..i + 1]) == Goods(lines[..i]);
        if lines[i].Good? {
          var m := lines[i].msg;
          SelectPush(aliases, Goods(lines[..i]), m, recipient, since);
          if Dest(aliases, m.to) == recipient && (since == None || m.ts > since.value) {
            out := out + [m];
          }
        }
      }
      assert lines[..|lines|] == lines;
      return Ok(out);
    }
  }

  lemma {:induction false} StaysPlaced(a: Aliases, log: seq<Entry>, was: File, f: string, m: Msg, cut: Cut)
    requires Placed(a, log) ==> f == Safe(Dest(a, m.to))
    ensures Placed(a, log) ==> Placed(a, Logged(log, was, f, m, cut))
  {
    WithoutLastShrinks(log, f);
    var after := Logged(log, was, f, m, cut);
    if Placed(a, log) {
      forall i | 0 <= i < |after| ensures after[i].file == Safe(Dest(a, after[i].msg.to)) {
        assert after[i] in after;
        assert after[i] in log || after[i] == Entry(m, f);
      }
    }
  }

  lemma {:induction false} WithoutLastShrinks(log: seq<Entry>, f: string)
    ensures |WithoutLast(log, f)| <= |log|
    ensures forall e | e in WithoutLast(log, f) :: e in log
  {
    if log != [] && log[|log| - 1].file != f {
      WithoutLastShrinks(log[..|log| - 1], f);
    }
  }

  lemma {:induction false} SelectMember(a: Aliases, g: seq<Msg>, recipient: string, since: Option<Ts>)
    ensures forall m | m in Select(a, g, recipient, since) :: m in g && Wanted(a, m, recipient, since)
  {
    if g != [] {
      SelectMember(a, g[..|g| - 1], recipient, since);
    }
  }

  lemma {:induction false} SelectIncreasing(a: Aliases, g: seq<Msg>, recipient: string, since: Option<Ts>)
    requires Increasing(g)
    ensures Increasing(Select(a, g, recipient, since))
  {
    if g != [] {
      SelectIncreasing(a, g[..|g| - 1], recipient, since);
      SelectMember(a, g[..|g| - 1], recipient, since);
      assert forall m | m in g[..|g| - 1] :: m.ts < g[|g| - 1].ts;
    }
  }
}
