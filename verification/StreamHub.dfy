/**
  The push notifier: one event flag per recipient key.  Publishing appends a message and then sets the
  flags of the name it resolves to and of the name it was sent to; a stream reads, delivers, and waits
  on the flag of its own key, clearing it when the wait ends for whatever reason.  Streams connect and
  close at any time.  `NoLostWakeExactly` proves for which streams and aliases this loses no wake, and
  `WaitEnds` what the keep-alive repairs.
 */
module StreamHub {
  import opened Options
  import Store = InboxStore

  /** The longest wait, in seconds, before a stream reads again unprompted. */
  const KEEP_ALIVE := 15

  datatype Pc =
    | ToRead
    | Running                    // has read; delivering what it read
    | Parked(since: nat)         // waiting on the flag
    | Woken(since: nat)          // the flag was set while it waited; it has not run yet
    | Closed

  /** `key`: the name it listens under.  `seen`: how many messages had been appended at its last read. */
  datatype Stream = Stream(key: string, pc: Pc, seen: nat)

  /** `sent`: the names the appended messages were sent to.  `notified`: those whose publish has set its
      flags.  `flags`: the keys whose flag is set. */
  datatype State = State(
    aliases: Store.Aliases, sent: seq<string>, notified: set<nat>, flags: set<string>, clock: nat, streams: seq<Stream>)

  datatype Label =
    | Append(to: string)
    | Notify(i: nat)
    | Read(j: nat)
    | Wait(j: nat)
    | Resume(j: nat)
    | Timeout(j: nat)
    | Connect(key: string)
    | Close(j: nat)
    | Tick

  /** A publish to this name is not refused. */
  predicate Accepted(a: Store.Aliases, to: string) {
    Store.Resolve(a, to).Some? && Store.ValidRecipient(Store.Resolve(a, to).value)
  }

  /** The keys whose flag a publish to `to` sets. */
  function NotifiedKeys(a: Store.Aliases, to: string): set<string> {
    {Store.Dest(a, to), to}
  }

  function Start(a: Store.Aliases): State {
    State(a, [], {}, {}, 0, [])
  }

  /** How many streams are open under a key. */
  function OpenOn(streams: seq<Stream>, key: string): nat {
    if streams == [] then 0
    else
      var st := streams[|streams| - 1];
      OpenOn(streams[..|streams| - 1], key) + if st.key == key && !st.pc.Closed? then 1 else 0
  }

  /** How many streams may be open under each key at a time. */
  type Limit = string -> nat

  predicate Waiting(pc: Pc) {
    pc.Parked? || pc.Woken?
  }

  /** Time does not pass a wait's end before the wait has ended; a stream with a life span may wait less
      than the keep-alive.  The limit is a rule about the clients: the hub itself counts no streams. */
  predicate Enabled(limit: Limit, s: State, l: Label) {
    match l
    case Append(to) => Accepted(s.aliases, to)
    case Notify(i) => i < |s.sent|
    case Read(j) => j < |s.streams| && s.streams[j].pc == ToRead
    case Wait(j) => j < |s.streams| && s.streams[j].pc == Running
    case Resume(j) => j < |s.streams| && s.streams[j].pc.Woken?
    case Timeout(j) => j < |s.streams| && s.streams[j].pc.Parked?
    case Connect(key) => OpenOn(s.streams, key) < limit(key)
    case Close(j) => j < |s.streams|
    case Tick => forall j | 0 <= j < |s.streams| && Waiting(s.streams[j].pc) :: s.clock < s.streams[j].pc.since + KEEP_ALIVE
  }

  function Wake(st: Stream, keys: set<string>): Stream {
    if st.pc.Parked? && st.key in keys then st.(pc := Woken(st.pc.since)) else st
  }

  function WakeAll(streams: seq<Stream>, keys: set<string>): (r: seq<Stream>)
    ensures |r| == |streams|
    ensures forall j | 0 <= j < |r| :: r[j] == Wake(streams[j], keys)
  {
    seq(|streams|, j requires 0 <= j < |streams| => Wake(streams[j], keys))
  }

  function SetPc(s: State, j: nat, pc: Pc): State
    requires j < |s.streams|
  {
    s.(streams := s.streams[j := s.streams[j].(pc := pc)])
  }

  /** The wait of stream j is over: it clears its flag and goes on to read. */
  function Resumed(s: State, j: nat): State
    requires j < |s.streams|
  {
    SetPc(s, j, ToRead).(flags := s.flags - {s.streams[j].key})
  }

  function Next(limit: Limit, s: State, l: Label): (t: State)
    requires Enabled(limit, s, l)
    ensures |s.streams| <= |t.streams|
  {
    match l
    case Append(to) => s.(sent := s.sent + [to])
    case Notify(i) =>
      var keys := NotifiedKeys(s.aliases, s.sent[i]);
      s.(notified := s.notified + {i}, flags := s.flags + keys, streams := WakeAll(s.streams, keys))
    case Read(j) => s.(streams := s.streams[j := s.streams[j].(pc := Running, seen := |s.sent|)])
    case Wait(j) => if s.streams[j].key in s.flags then Resumed(s, j) else SetPc(s, j, Parked(s.clock))
    case Resume(j) => Resumed(s, j)
    case Timeout(j) => Resumed(s, j)
    case Connect(key) => s.(streams := s.streams + [Stream(key, ToRead, 0)])
    case Close(j) =>
      // a wait that is cancelled clears the flag like any other
      var t := if Waiting(s.streams[j].pc) then Resumed(s, j) else s;
      SetPc(t, j, Closed)
    case Tick => s.(clock := s.clock + 1)
  }

  predicate Possible(limit: Limit, s: State, ls: seq<Label>)
    decreases |ls|
  {
    |ls| > 0 ==> Enabled(limit, s, ls[0]) && Possible(limit, Next(limit, s, ls[0]), ls[1..])
  }

  function After(limit: Limit, s: State, ls: seq<Label>): State
    requires Possible(limit, s, ls)
    decreases |ls|
  {
    if |ls| == 0 then s else After(limit, Next(limit, s, ls[0]), ls[1..])
  }

  /** A publish to `to` is mail for whoever reads `key`. */
  predicate Reaches(a: Store.Aliases, to: string, key: string) {
    Accepted(a, to) && Store.Dest(a, to) == Store.Dest(a, key)
  }

  /** Stream j has not read a message for it whose publish has already notified. */
  predicate Behind(s: State, j: nat)
    requires j < |s.streams|
  {
    exists i | i in s.notified :: s.streams[j].seen <= i < |s.sent| && Reaches(s.aliases, s.sent[i], s.streams[j].key)
  }

  /** Stream j, if it is open and behind, finds its flag set or reads before it parks. */
  predicate Caught(s: State, j: nat)
    requires j < |s.streams|
  {
    Behind(s, j) ==>
      s.streams[j].key in s.flags || s.streams[j].pc == ToRead || s.streams[j].pc.Woken? || s.streams[j].pc.Closed?
  }

  /** No wake is lost. */
  predicate NoneLost(s: State) {
    forall j | 0 <= j < |s.streams| :: Caught(s, j)
  }

  /** Stream j has slept on an announced message until its keep-alive. */
  predicate Overslept(s: State, j: nat) {
    && j < |s.streams| && Behind(s, j)
    && s.streams[j].pc.Parked? && s.clock == s.streams[j].pc.since + KEEP_ALIVE
  }

  ghost predicate NeverLost(a: Store.Aliases, limit: Limit) {
    forall ls | Possible(limit, Start(a), ls) :: NoneLost(After(limit, Start(a), ls))
  }

  ghost predicate NeverOversleeps(a: Store.Aliases, limit: Limit) {
    forall ls, j: nat | Possible(limit, Start(a), ls) :: !Overslept(After(limit, Start(a), ls), j)
  }

  /** A name that reaches a key sets its flag, and one stream at a time may listen under the key. */
  predicate WellHeard(a: Store.Aliases, limit: Limit, key: string, to: string) {
    limit(key) > 0 && Reaches(a, to, key) ==> key in NotifiedKeys(a, to) && limit(key) == 1
  }

  ghost predicate AllWellHeard(a: Store.Aliases, limit: Limit) {
    forall key: string, to: string :: WellHeard(a, limit, key, to)
  }

  // ---------------------------------------------------------------- every run

  /** Where only one stream at a time may listen, at most one is open. */
  predicate Alone(limit: Limit, s: State) {
    forall i, j | 0 <= i < j < |s.streams| && s.streams[i].key == s.streams[j].key && limit(s.streams[i].key) <= 1 ::
      s.streams[i].pc.Closed? || s.streams[j].pc.Closed?
  }

  predicate Permitted(limit: Limit, s: State) {
    forall j | 0 <= j < |s.streams| :: limit(s.streams[j].key) > 0
  }

  predicate Timed(s: State) {
    forall j | 0 <= j < |s.streams| && Waiting(s.streams[j].pc) ::
      s.streams[j].pc.since <= s.clock <= s.streams[j].pc.since + KEEP_ALIVE
  }

  predicate Notified(s: State) {
    forall i | i in s.notified :: i < |s.sent|
  }

  predicate Unset(s: State) {
    forall j | 0 <= j < |s.streams| && s.streams[j].pc.Parked? :: s.streams[j].key !in s.flags
  }

  ghost predicate Inv(limit: Limit, s: State) {
    && Notified(s) && Timed(s) && Unset(s) && Permitted(limit, s) && Alone(limit, s)
    && (AllWellHeard(s.aliases, limit) ==> NoneLost(s))
  }

  lemma {:induction false} NoneOpen(streams: seq<Stream>, key: string)
    requires OpenOn(streams, key) == 0
    ensures forall j | 0 <= j < |streams| && streams[j].key == key :: streams[j].pc.Closed?
  {
    if streams != [] {
      NoneOpen(streams[..|streams| - 1], key);
    }
  }

  /** What a step leaves of a stream that was there before: its key, what it has read, and its end. */
  lemma {:induction false} StreamAfter(limit: Limit, s: State, l: Label, j: nat)
    requires Enabled(limit, s, l) && j < |s.streams|
    ensures var st, t := s.streams[j], Next(limit, s, l).streams[j];
            t.key == st.key && t.seen == (if l == Read(j) then |s.sent| else st.seen) && (st.pc.Closed? ==> t.pc.Closed?)
  {
  }

  lemma {:induction false} StreamsAfter(limit: Limit, s: State, l: Label)
    requires Enabled(limit, s, l)
    ensures |Next(limit, s, l).streams| == |s.streams| + if l.Connect? then 1 else 0
    ensures l.Connect? ==> Next(limit, s, l).streams == s.streams + [Stream(l.key, ToRead, 0)]
  {
  }

  lemma {:induction false} StepKeepsAlone(limit: Limit, s: State, l: Label)
    requires Enabled(limit, s, l) && Permitted(limit, s) && Alone(limit, s)
    ensures Permitted(limit, Next(limit, s, l)) && Alone(limit, Next(limit, s, l))
  {
    StreamsAfter(limit, s, l);
    if l.Connect? {
      if limit(l.key) <= 1 {
        NoneOpen(s.streams, l.key);
      }
    } else {
      forall j | 0 <= j < |s.streams|
        ensures var t := Next(limit, s, l).streams[j]; t.key == s.streams[j].key && (s.streams[j].pc.Closed? ==> t.pc.Closed?)
      {
        StreamAfter(limit, s, l, j);
      }
    }
  }

  lemma {:induction false} StepKeepsTimes(limit: Limit, s: State, l: Label)
    requires Enabled(limit, s, l) && Notified(s) && Timed(s) && Unset(s)
    ensures Notified(Next(limit, s, l)) && Timed(Next(limit, s, l)) && Unset(Next(limit, s, l))
  {
  }

  /** A stream that is behind after a step was behind before it, unless the step notified it or opened it. */
  lemma {:induction false} BehindBefore(limit: Limit, s: State, l: Label, j: nat)
    requires Enabled(limit, s, l) && j < |s.streams| && Behind(Next(limit, s, l), j) && Notified(s)
    ensures Behind(s, j) || (l.Notify? && Reaches(s.aliases, s.sent[l.i], s.streams[j].key))
    ensures l != Read(j)
  {
    var t := Next(limit, s, l);
    var i :| i in t.notified && t.streams[j].seen <= i < |t.sent| && Reaches(t.aliases, t.sent[i], t.streams[j].key);
    StreamAfter(limit, s, l, j);
    MessagesAfter(limit, s, l);
  }

  /** What a step does to the messages. */
  lemma {:induction false} MessagesAfter(limit: Limit, s: State, l: Label)
    requires Enabled(limit, s, l)
    ensures var t := Next(limit, s, l);
            && t.aliases == s.aliases && s.sent <= t.sent
            && t.notified == if l.Notify? then s.notified + {l.i} else s.notified
  {
  }

  /** The flag of a key under which no other stream is open is cleared by stream j alone. */
  lemma {:induction false} OnlyOwnerClears(limit: Limit, s: State, l: Label, j: nat)
    requires Enabled(limit, s, l) && j < |s.streams| && s.streams[j].key in s.flags
    requires forall i | 0 <= i < |s.streams| && i != j && s.streams[i].key == s.streams[j].key :: s.streams[i].pc.Closed?
    requires l != Wait(j) && l != Resume(j) && l != Timeout(j) && l != Close(j)
    ensures s.streams[j].key in Next(limit, s, l).flags
  {
    match l
    case Wait(i) => assert i != j;
    case Resume(i) => assert i != j;
    case Timeout(i) => assert i != j;
    case Close(i) => assert i != j;
    case _ =>
  }

  lemma {:induction false} AloneMeans(limit: Limit, s: State, j: nat)
    requires Alone(limit, s) && j < |s.streams| && limit(s.streams[j].key) <= 1 && !s.streams[j].pc.Closed?
    ensures forall i | 0 <= i < |s.streams| && i != j && s.streams[i].key == s.streams[j].key :: s.streams[i].pc.Closed?
  {
  }

  lemma {:induction false} StepKeepsCaught(limit: Limit, s: State, l: Label, j: nat)
    requires Enabled(limit, s, l) && j < |s.streams| && Caught(s, j) && Notified(s) && Permitted(limit, s) && Alone(limit, s)
    requires AllWellHeard(s.aliases, limit)
    ensures Caught(Next(limit, s, l), j)
  {
    if Behind(Next(limit, s, l), j) {
      BehindBefore(limit, s, l, j);
      if l.Notify? {
        assert WellHeard(s.aliases, limit, s.streams[j].key, s.sent[l.i]);
      } else if !s.streams[j].pc.Closed? {
        var i :| i in s.notified && s.streams[j].seen <= i < |s.sent| && Reaches(s.aliases, s.sent[i], s.streams[j].key);
        assert WellHeard(s.aliases, limit, s.streams[j].key, s.sent[i]);
        AloneMeans(limit, s, j);
        AloneStaysCaught(limit, s, l, j);
      } else {
        StreamAfter(limit, s, l, j);
      }
    }
  }

  /** A stream that has its key to itself cannot miss a flag that is set. */
  lemma {:induction false} AloneStaysCaught(limit: Limit, s: State, l: Label, j: nat)
    requires Enabled(limit, s, l) && !l.Notify? && l != Read(j) && j < |s.streams| && !s.streams[j].pc.Closed?
    requires s.streams[j].key in s.flags || s.streams[j].pc == ToRead || s.streams[j].pc.Woken?
    requires forall i | 0 <= i < |s.streams| && i != j && s.streams[i].key == s.streams[j].key :: s.streams[i].pc.Closed?
    ensures Caught(Next(limit, s, l), j)
  {
    StreamAfter(limit, s, l, j);
    if s.streams[j].key in s.flags && l != Wait(j) && l != Resume(j) && l != Timeout(j) && l != Close(j) {
      OnlyOwnerClears(limit, s, l, j);
    }
  }

  lemma {:induction false} StepKeepsInv(limit: Limit, s: State, l: Label)
    requires Inv(limit, s) && Enabled(limit, s, l)
    ensures Inv(limit, Next(limit, s, l)) && Next(limit, s, l).aliases == s.aliases
  {
    StepKeepsTimes(limit, s, l);
    StepKeepsAlone(limit, s, l);
    if AllWellHeard(s.aliases, limit) {
      forall j | 0 <= j < |Next(limit, s, l).streams| ensures Caught(Next(limit, s, l), j) {
        if j < |s.streams| {
          StepKeepsCaught(limit, s, l, j);
        }
      }
    }
  }

  lemma {:induction false} RunKeepsInv(limit: Limit, s: State, ls: seq<Label>)
    requires Inv(limit, s) && Possible(limit, s, ls)
    ensures Inv(limit, After(limit, s, ls)) && After(limit, s, ls).aliases == s.aliases
    decreases |ls|
  {
    if |ls| > 0 {
      StepKeepsInv(limit, s, ls[0]);
      RunKeepsInv(limit, Next(limit, s, ls[0]), ls[1..]);
    }
  }

  // ---------------------------------------------------------------- runs that lose a wake

  lemma {:induction false} Then(limit: Limit, s0: State, ls: seq<Label>, s: State, l: Label) returns (more: seq<Label>, t: State)
    requires Possible(limit, s0, ls) && After(limit, s0, ls) == s && Enabled(limit, s, l)
    ensures more == ls + [l] && t == Next(limit, s, l)
    ensures Possible(limit, s0, more) && After(limit, s0, more) == t
    decreases |ls|
  {
    more, t := ls + [l], Next(limit, s, l);
    if |ls| == 0 {
      assert more == [l] && more[1..] == [];
    } else {
      var rest, _ := Then(limit, Next(limit, s0, ls[0]), ls[1..], s, l);
      assert more[0] == ls[0] && more[1..] == rest;
    }
  }

  /** Nothing else happens for `n` seconds. */
  lemma {:induction false} Silence(limit: Limit, s0: State, ls: seq<Label>, s: State, n: nat) returns (more: seq<Label>, t: State)
    requires Possible(limit, s0, ls) && After(limit, s0, ls) == s
    requires forall j | 0 <= j < |s.streams| && Waiting(s.streams[j].pc) :: s.clock + n <= s.streams[j].pc.since + KEEP_ALIVE
    ensures Possible(limit, s0, more) && After(limit, s0, more) == t && t == s.(clock := s.clock + n)
  {
    more, t := ls, s;
    if n > 0 {
      more, t := Silence(limit, s0, ls, s, n - 1);
      more, t := Then(limit, s0, more, t, Tick);
    }
  }

  /** No stream but j waits, and j is parked since now on an announced message. */
  ghost predicate Stuck(s: State, j: nat) {
    && j < |s.streams| && s.streams[j].pc == Parked(s.clock) && Behind(s, j) && s.streams[j].key !in s.flags
    && forall i | 0 <= i < |s.streams| && i != j :: !Waiting(s.streams[i].pc)
  }

  lemma {:induction false} StuckOversleeps(limit: Limit, s0: State, ls: seq<Label>, j: nat) returns (more: seq<Label>)
    requires Possible(limit, s0, ls) && Stuck(After(limit, s0, ls), j)
    ensures Possible(limit, s0, more) && Overslept(After(limit, s0, more), j) && !NoneLost(After(limit, s0, more))
  {
    var s, t := After(limit, s0, ls), s0;
    more, t := Silence(limit, s0, ls, s, KEEP_ALIVE);
    var i :| i in s.notified && s.streams[j].seen <= i < |s.sent| && Reaches(s.aliases, s.sent[i], s.streams[j].key);
    assert i in t.notified;
    assert Behind(t, j) && !Caught(t, j);
  }

  /** The first message is appended and its publish notifies. */
  lemma {:induction false} Announce(limit: Limit, s0: State, ls: seq<Label>, s: State, to: string) returns (more: seq<Label>, t: State)
    requires Possible(limit, s0, ls) && After(limit, s0, ls) == s && s.sent == [] && Accepted(s.aliases, to)
    ensures Possible(limit, s0, more) && After(limit, s0, more) == t
    ensures t == s.(sent := [to], notified := s.notified + {0}, flags := s.flags + NotifiedKeys(s.aliases, to),
                    streams := WakeAll(s.streams, NotifiedKeys(s.aliases, to)))
  {
    more, t := Then(limit, s0, ls, s, Append(to));
    assert t.sent == [to];
    more, t := Then(limit, s0, more, t, Notify(0));
  }

  /** A publish that reaches a stream sets no flag it listens to: it has read and parked, and sleeps on. */
  lemma {:induction false} AliasSleepsOn(a: Store.Aliases, limit: Limit, key: string, to: string) returns (ls: seq<Label>)
    requires limit(key) > 0 && Reaches(a, to, key) && key !in NotifiedKeys(a, to)
    ensures Possible(limit, Start(a), ls) && Stuck(After(limit, Start(a), ls), 0)
  {
    var s0 := Start(a);
    var s := s0;
    ls := [];
    ls, s := Then(limit, s0, ls, s, Connect(key));
    ls, s := Then(limit, s0, ls, s, Read(0));
    ls, s := Then(limit, s0, ls, s, Wait(0));
    assert s == s0.(streams := [Stream(key, Parked(0), 0)]);
    ls, s := Announce(limit, s0, ls, s, to);
    assert s.streams == [Stream(key, Parked(0), 0)];
    assert 0 in s.notified && s.sent == [to];
    assert Behind(s, 0);
  }

  lemma {:induction false} ConnectTwo(limit: Limit, s0: State, ls: seq<Label>, s: State, key: string) returns (more: seq<Label>, t: State)
    requires Possible(limit, s0, ls) && After(limit, s0, ls) == s && limit(key) > 1 && s.streams == []
    ensures Possible(limit, s0, more) && After(limit, s0, more) == t
    ensures t == s.(streams := [Stream(key, ToRead, 0), Stream(key, ToRead, 0)])
  {
    more, t := Then(limit, s0, ls, s, Connect(key));
    assert t.streams == [Stream(key, ToRead, 0)] && t.streams[..0] == [];
    more, t := Then(limit, s0, more, t, Connect(key));
    assert t.streams == [Stream(key, ToRead, 0), Stream(key, ToRead, 0)];
  }

  lemma {:induction false} ReadBothWaitOne(limit: Limit, s0: State, ls: seq<Label>, s: State) returns (more: seq<Label>, t: State)
    requires Possible(limit, s0, ls) && After(limit, s0, ls) == s
    requires |s.streams| == 2 && s.streams[0].pc == ToRead == s.streams[1].pc && s.sent == [] && s.flags == {}
    ensures Possible(limit, s0, more) && After(limit, s0, more) == t
    ensures t == s.(streams := [Stream(s.streams[0].key, Parked(s.clock), 0), Stream(s.streams[1].key, Running, 0)])
  {
    more, t := Then(limit, s0, ls, s, Read(0));
    more, t := Then(limit, s0, more, t, Read(1));
    more, t := Then(limit, s0, more, t, Wait(0));
    assert t.streams == [Stream(s.streams[0].key, Parked(s.clock), 0), Stream(s.streams[1].key, Running, 0)];
  }

  /** Two streams under one key: the first is parked, the second is still delivering, and a message has
      been announced. */
  lemma {:induction false} OneWokenOneRunning(a: Store.Aliases, limit: Limit, key: string, to: string) returns (ls: seq<Label>, s: State)
    requires limit(key) > 1 && Reaches(a, to, key) && key in NotifiedKeys(a, to)
    ensures Possible(limit, Start(a), ls) && After(limit, Start(a), ls) == s
    ensures s.streams == [Stream(key, Woken(0), 0), Stream(key, Running, 0)] && s.clock == 0 && Behind(s, 1)
  {
    var s0 := Start(a);
    s := s0;
    ls := [];
    ls, s := ConnectTwo(limit, s0, ls, s, key);
    ls, s := ReadBothWaitOne(limit, s0, ls, s);
    ls, s := Announce(limit, s0, ls, s, to);
    assert 0 in s.notified && s.sent == [to];
    assert Behind(s, 1);
  }

  /** The first one clears the flag, whether it resumes or is closed, and the second parks on the message. */
  lemma {:induction false} FirstClears(a: Store.Aliases, limit: Limit, ls: seq<Label>, s: State, l: Label) returns (more: seq<Label>)
    requires Possible(limit, Start(a), ls) && After(limit, Start(a), ls) == s && l in {Resume(0), Close(0)}
    requires |s.streams| == 2 && s.streams[0].key == s.streams[1].key
    requires s.streams[0].pc.Woken? && s.streams[1].pc == Running && Behind(s, 1)
    ensures Possible(limit, Start(a), more) && Stuck(After(limit, Start(a), more), 1)
    ensures l == Close(0) ==> After(limit, Start(a), more).streams[0].pc.Closed?
  {
    var n :| n in s.notified && s.streams[1].seen <= n < |s.sent| && Reaches(s.aliases, s.sent[n], s.streams[1].key);
    var t := s;
    more, t := Then(limit, Start(a), ls, s, l);
    assert t.streams[1] == s.streams[1] && t.streams[1].key !in t.flags;
    more, t := Then(limit, Start(a), more, t, Wait(1));
    assert n in t.notified;
    assert Behind(t, 1);
  }

  /** Two streams share a flag: the first one woken clears it while the second is still delivering, and
      the second parks on a message that was announced. */
  lemma {:induction false} SharedFlagLoses(a: Store.Aliases, limit: Limit, key: string, to: string) returns (ls: seq<Label>)
    requires limit(key) > 1 && Reaches(a, to, key) && key in NotifiedKeys(a, to)
    ensures Possible(limit, Start(a), ls) && Stuck(After(limit, Start(a), ls), 1)
  {
    var s;
    ls, s := OneWokenOneRunning(a, limit, key, to);
    ls := FirstClears(a, limit, ls, s, Resume(0));
  }

  /** A client that reconnects before its old stream is torn down: the old stream's cancelled wait clears
      the flag, and the new stream parks on a message that was announced. */
  lemma {:induction false} LateCloseLoses(a: Store.Aliases, limit: Limit, key: string, to: string) returns (ls: seq<Label>)
    requires limit(key) > 1 && Reaches(a, to, key) && key in NotifiedKeys(a, to)
    ensures Possible(limit, Start(a), ls)
    ensures var s := After(limit, Start(a), ls); Stuck(s, 1) && s.streams[0].pc.Closed?
  {
    var s;
    ls, s := OneWokenOneRunning(a, limit, key, to);
    ls := FirstClears(a, limit, ls, s, Close(0));
  }

  // ---------------------------------------------------------------- main results

  /** Main result, for every rule about how many streams listen under each key and every alias map: no
      wake is lost, in any run, if and only if each key that a publish can reach has one stream at a time
      and has its flag set by every name that reaches it; and exactly then no stream sleeps on an
      announced message until its keep-alive. */
  lemma {:induction false} NoLostWakeExactly(a: Store.Aliases, limit: Limit)
    ensures NeverLost(a, limit) <==> AllWellHeard(a, limit)
    ensures NeverOversleeps(a, limit) <==> AllWellHeard(a, limit)
  {
    var s0 := Start(a);
    if AllWellHeard(a, limit) {
      forall ls | Possible(limit, s0, ls) ensures NoneLost(After(limit, s0, ls)) && forall j: nat :: !Overslept(After(limit, s0, ls), j) {
        RunKeepsInv(limit, s0, ls);
        var s := After(limit, s0, ls);
        assert forall j: nat | Overslept(s, j) :: Caught(s, j);
      }
    } else {
      var key: string, to: string :| !WellHeard(a, limit, key, to);
      var j, ls := LosingRun(a, limit, key, to);
      assert Overslept(After(limit, s0, ls), j) && !NoneLost(After(limit, s0, ls));
    }
  }

  lemma {:induction false} LosingRun(a: Store.Aliases, limit: Limit, key: string, to: string) returns (j: nat, ls: seq<Label>)
    requires !WellHeard(a, limit, key, to)
    ensures Possible(limit, Start(a), ls) && Overslept(After(limit, Start(a), ls), j) && !NoneLost(After(limit, Start(a), ls))
  {
    if key !in NotifiedKeys(a, to) {
      j := 0;
      ls := AliasSleepsOn(a, limit, key, to);
    } else {
      j := 1;
      ls := SharedFlagLoses(a, limit, key, to);
    }
    ls := StuckOversleeps(limit, Start(a), ls, j);
  }

  /** The simplest good case: one stream at a time under each key, and keys that resolve to themselves. */
  lemma {:induction false} ResolvedNamesAreHeard(a: Store.Aliases, limit: Limit)
    requires forall key: string | limit(key) > 0 :: limit(key) == 1 && Store.Dest(a, key) == key
    ensures NeverLost(a, limit) && NeverOversleeps(a, limit)
  {
    NoLostWakeExactly(a, limit);
  }

  /** On one plain name, no wake is lost if and only if at most one stream listens at a time. */
  lemma {:induction false} OneListenerExactly(name: string, n: nat)
    requires Store.ValidRecipient(name) && '/' !in name
    ensures NeverLost(map[], key => if key == name then n else 0) <==> n <= 1
  {
    var limit: Limit := key => if key == name then n else 0;
    NoLostWakeExactly(map[], limit);
    assert Reaches(map[], name, name);
    if n > 1 {
      assert !WellHeard(map[], limit, name, name);
    }
  }

  // ---------------------------------------------------------------- the keep-alive

  /** Waiting since `c`, about to read, closed, or with all of the first `n` messages read. */
  predicate OnItsWay(st: Stream, c: nat, n: nat) {
    (Waiting(st.pc) && st.pc.since == c) || st.pc == ToRead || st.pc.Closed? || st.seen >= n
  }

  lemma {:induction false} StaysOnItsWay(limit: Limit, s: State, ls: seq<Label>, j: nat, c: nat, n: nat)
    requires Possible(limit, s, ls) && j < |s.streams| && n <= |s.sent| && OnItsWay(s.streams[j], c, n)
    ensures |s.streams| <= |After(limit, s, ls).streams| && OnItsWay(After(limit, s, ls).streams[j], c, n)
    decreases |ls|
  {
    if |ls| > 0 {
      StaysOnItsWay(limit, Next(limit, s, ls[0]), ls[1..], j, c, n);
    }
  }

  /** One of these labels ends the wait of stream j. */
  predicate EndsWait(ls: seq<Label>, j: nat) {
    Resume(j) in ls || Timeout(j) in ls || Close(j) in ls
  }

  /** A wait that has not been ended is no older than the keep-alive. */
  lemma {:induction false} UnendedWait(limit: Limit, s: State, ls: seq<Label>, j: nat)
    requires Inv(limit, s) && Possible(limit, s, ls) && j < |s.streams| && Waiting(s.streams[j].pc)
    requires !EndsWait(ls, j)
    ensures After(limit, s, ls).clock <= s.streams[j].pc.since + KEEP_ALIVE
    decreases |ls|
  {
    if |ls| > 0 {
      StepKeepsInv(limit, s, ls[0]);
      assert ls[0] in ls;
      UnendedWait(limit, Next(limit, s, ls[0]), ls[1..], j);
    }
  }

  /** Main result, for any streams and aliases: from a reachable state where stream j is parked, every
      run whose clock passes the keep-alive ends that wait; and by then the stream is closed, is about to
      read, or has read everything that had been appended, announced or not. */
  lemma {:induction false} WaitEnds(a: Store.Aliases, limit: Limit, before: seq<Label>, ls: seq<Label>, j: nat)
    requires Possible(limit, Start(a), before) && Possible(limit, After(limit, Start(a), before), ls)
    requires var s := After(limit, Start(a), before);
             && j < |s.streams| && s.streams[j].pc.Parked?
             && After(limit, s, ls).clock > s.streams[j].pc.since + KEEP_ALIVE
    ensures EndsWait(ls, j)
    ensures var s, t := After(limit, Start(a), before), After(limit, After(limit, Start(a), before), ls);
            j < |t.streams| && (t.streams[j].pc.Closed? || t.streams[j].pc == ToRead || t.streams[j].seen >= |s.sent|)
  {
    var s := After(limit, Start(a), before);
    RunKeepsInv(limit, Start(a), before);
    RunKeepsInv(limit, s, ls);
    StaysOnItsWay(limit, s, ls, j, s.streams[j].pc.since, |s.sent|);
    if !EndsWait(ls, j) {
      UnendedWait(limit, s, ls, j);
    }
  }
}
