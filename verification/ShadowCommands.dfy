/**
  What a run of commands does to a shadow, field by field, told from the commands alone.
 */
module ShadowCommands {
  import opened Options
  import opened Shadow

  lemma {:induction false} ApplyLast(c: Controls, cmds: seq<Cmd>, hosted: bool)
    requires cmds != []
    ensures ApplyAll(c, cmds, hosted) == Apply(ApplyAll(c, cmds[..|cmds| - 1], hosted), cmds[|cmds| - 1], hosted)
    ensures cmds == cmds[..|cmds| - 1] + [cmds[|cmds| - 1]]
  {
  }

  // ---------------------------------------------------------------- mode and restarts

  /** Command `i` silences, and nothing after it resumes. */
  predicate SilencesForGood(cmds: seq<Cmd>, i: nat) {
    i < |cmds| && cmds[i] == Silence && ResumeAuto !in cmds[i + 1..]
  }

  ghost predicate SomeSilencesForGood(cmds: seq<Cmd>) {
    exists i: nat :: SilencesForGood(cmds, i)
  }

  lemma {:induction false} SilencedSnoc(front: seq<Cmd>, cmd: Cmd)
    ensures SomeSilencesForGood(front + [cmd]) <==> cmd == Silence || (cmd != ResumeAuto && SomeSilencesForGood(front))
  {
    var cmds := front + [cmd];
    if cmd == Silence {
      assert SilencesForGood(cmds, |front|);
    }
    forall i: nat | i < |front| ensures SilencesForGood(cmds, i) <==> SilencesForGood(front, i) && cmd != ResumeAuto {
      assert cmds[i + 1..] == front[i + 1..] + [cmd];
    }
    if cmd != ResumeAuto && SomeSilencesForGood(front) {
      var i: nat :| SilencesForGood(front, i);
      assert SilencesForGood(cmds, i);
    }
    if SomeSilencesForGood(cmds) && cmd != Silence {
      var i: nat :| SilencesForGood(cmds, i);
      assert i < |front| && SilencesForGood(front, i);
    }
  }

  /** Main result: the shadow is silenced afterwards if and only if some silence is followed by no resume,
      or it was silenced before and nothing resumes it; each rearm counts one restart. */
  lemma {:induction false} ModeAfter(c: Controls, cmds: seq<Cmd>, hosted: bool)
    ensures var after := ApplyAll(c, cmds, hosted);
            && (after.mode == Silenced <==> SomeSilencesForGood(cmds) || (c.mode == Silenced && ResumeAuto !in cmds))
            && after.restarts == c.restarts + multiset(cmds)[Rearm]
  {
    if cmds != [] {
      ModeAfter(c, cmds[..|cmds| - 1], hosted);
      ApplyLast(c, cmds, hosted);
      SilencedSnoc(cmds[..|cmds| - 1], cmds[|cmds| - 1]);
    }
  }

  // ---------------------------------------------------------------- the driver

  /** A command that arms the driver of a shadow that has one to arm. */
  predicate Starts(cmd: Cmd) {
    cmd == ResumeAuto || cmd == Rearm || (cmd.Observe? && cmd.spec != "")
  }

  /** A command that leaves the driver stopped: where there is no driver to arm, also one that would arm it anew. */
  predicate Stills(cmd: Cmd, hosted: bool) {
    cmd == Silence || (!hosted && Starts(cmd) && cmd != ResumeAuto)
  }

  predicate StartsForGood(cmds: seq<Cmd>, i: nat) {
    i < |cmds| && Starts(cmds[i]) && Silence !in cmds[i + 1..]
  }

  ghost predicate SomeStartsForGood(cmds: seq<Cmd>) {
    exists i: nat :: StartsForGood(cmds, i)
  }

  lemma {:induction false} StartedSnoc(front: seq<Cmd>, cmd: Cmd)
    ensures SomeStartsForGood(front + [cmd]) <==> Starts(cmd) || (cmd != Silence && SomeStartsForGood(front))
  {
    var cmds := front + [cmd];
    if Starts(cmd) {
      assert StartsForGood(cmds, |front|);
    }
    forall i: nat | i < |front| ensures StartsForGood(cmds, i) <==> StartsForGood(front, i) && cmd != Silence {
      assert cmds[i + 1..] == front[i + 1..] + [cmd];
    }
    if cmd != Silence && SomeStartsForGood(front) {
      var i: nat :| StartsForGood(front, i);
      assert StartsForGood(cmds, i);
    }
    if SomeStartsForGood(cmds) && !Starts(cmd) {
      var i: nat :| StartsForGood(cmds, i);
      assert i < |front| && StartsForGood(front, i);
    }
  }

  /** Main result: the driver runs afterwards if and only if there is one to arm and some command that arms
      it is followed by no silence, or it ran before and no command stops it; a shadow comes to have a
      driver only through a command that arms one. */
  lemma {:induction false} DriverAfter(c: Controls, cmds: seq<Cmd>, hosted: bool)
    ensures var after := ApplyAll(c, cmds, hosted);
            && (after.driver == Running <==>
                  (hosted && SomeStartsForGood(cmds)) || (c.driver == Running && forall cmd | cmd in cmds :: !Stills(cmd, hosted)))
            && (after.driver == NoDriver <==> c.driver == NoDriver && !(hosted && exists cmd | cmd in cmds :: Starts(cmd)))
  {
    if cmds != [] {
      var front, last := cmds[..|cmds| - 1], cmds[|cmds| - 1];
      DriverAfter(c, front, hosted);
      ApplyLast(c, cmds, hosted);
      StartedSnoc(front, last);
      InSnoc(front, last);
      DriverStep(ApplyAll(c, front, hosted), last, hosted);
    }
  }

  lemma {:induction false} InSnoc(front: seq<Cmd>, last: Cmd)
    ensures forall cmd :: cmd in front + [last] <==> cmd in front || cmd == last
  {
  }

  lemma {:induction false} DriverStep(c: Controls, cmd: Cmd, hosted: bool)
    ensures var d := Apply(c, cmd, hosted).driver;
            && (d == Running <==> (hosted && Starts(cmd)) || (c.driver == Running && !Stills(cmd, hosted)))
            && (d == NoDriver <==> c.driver == NoDriver && !(hosted && Starts(cmd)))
  {
  }

  // ---------------------------------------------------------------- pace and spec

  /** Command `i` sets the pace, and no later one does. */
  predicate PacesLast(cmds: seq<Cmd>, i: nat) {
    i < |cmds| && SetsPace(cmds[i]) && forall j | i < j < |cmds| :: !SetsPace(cmds[j])
  }

  predicate SetsPace(cmd: Cmd) {
    cmd.Pace? && cmd.interval != 0.0
  }

  /** The heartbeat is the last pace that is not zero, or as it was when there is none. */
  lemma {:induction false} PaceAfter(c: Controls, cmds: seq<Cmd>, hosted: bool)
    ensures forall i: nat | PacesLast(cmds, i) :: ApplyAll(c, cmds, hosted).heartbeat == cmds[i].interval
    ensures (forall cmd | cmd in cmds :: !SetsPace(cmd)) ==> ApplyAll(c, cmds, hosted).heartbeat == c.heartbeat
  {
    if cmds != [] {
      var front, last := cmds[..|cmds| - 1], cmds[|cmds| - 1];
      PaceAfter(c, front, hosted);
      ApplyLast(c, cmds, hosted);
      InSnoc(front, last);
      assert last in cmds && forall cmd | cmd in front :: cmd in cmds;
      forall i: nat | PacesLast(cmds, i) ensures ApplyAll(c, cmds, hosted).heartbeat == cmds[i].interval {
        assert i < |front| ==> PacesLast(front, i) && !SetsPace(last);
      }
    }
  }

  /** The specs that are added, in order; an empty one adds nothing. */
  function Observed(cmds: seq<Cmd>): seq<string> {
    if cmds == [] then []
    else Observed(cmds[..|cmds| - 1]) + Named(cmds[|cmds| - 1])
  }

  function Named(cmd: Cmd): seq<string> {
    if cmd.Observe? && cmd.spec != "" then [cmd.spec] else []
  }

  lemma {:induction false} ObservedNamed(cmds: seq<Cmd>)
    ensures "" !in Observed(cmds)
  {
    if cmds != [] {
      ObservedNamed(cmds[..|cmds| - 1]);
    }
  }

  /** `n` openings of a merge. */
  function Openings(n: nat): string {
    if n == 0 then "" else "rx.merge(" + Openings(n - 1)
  }

  /** The names that follow the first, each closing a merge. */
  function Closings(names: seq<string>): string {
    if names == [] then "" else Closings(names[..|names| - 1]) + ", " + names[|names| - 1] + ")"
  }

  /** All names in one spec: `rx.merge(rx.merge(a, b), c)`. */
  function Nested(names: seq<string>): string {
    if names == [] then "" else Openings(|names| - 1) + names[0] + Closings(names[1..])
  }

  lemma {:induction false} NestedSnoc(names: seq<string>, name: string)
    ensures Nested(names + [name]) == if names == [] then name else "rx.merge(" + Nested(names) + ", " + name + ")"
  {
    var all := names + [name];
    if names == [] {
      assert all[1..] == [];
    } else {
      assert all[1..] == names[1..] + [name] && all[1..][..|names| - 1] == names[1..];
      assert Openings(|names|) == "rx.merge(" + Openings(|names| - 1);
      Reassociate(Openings(|names| - 1), names[0], Closings(names[1..]), name);
    }
  }

  lemma {:induction false} Reassociate(a: string, b: string, c: string, name: string)
    ensures ("rx.merge(" + a) + b + (c + ", " + name + ")") == "rx.merge(" + (a + b + c) + ", " + name + ")"
  {
  }

  /** Every spec that was there or is observed is in the spec afterwards, once each and in order. */
  lemma {:induction false} SpecAfter(c: Controls, cmds: seq<Cmd>, hosted: bool)
    ensures ApplyAll(c, cmds, hosted).spec == Nested((if c.spec == "" then [] else [c.spec]) + Observed(cmds))
  {
    var was: seq<string> := if c.spec == "" then [] else [c.spec];
    if c.spec != "" {
      assert was[1..] == [] && Nested(was) == c.spec;
    }
    SpecGrows(c, was, cmds, hosted);
  }

  lemma {:induction false} SpecGrows(c: Controls, names: seq<string>, cmds: seq<Cmd>, hosted: bool)
    requires "" !in names && c.spec == Nested(names)
    ensures ApplyAll(c, cmds, hosted).spec == Nested(names + Observed(cmds))
  {
    if cmds == [] {
      assert names + Observed(cmds) == names;
    } else {
      var front, last := cmds[..|cmds| - 1], cmds[|cmds| - 1];
      SpecGrows(c, names, front, hosted);
      ObservedNamed(front);
      SpecStep(ApplyAll(c, front, hosted), names + Observed(front), last, hosted);
      assert names + Observed(cmds) == names + Observed(front) + Named(last);
    }
  }

  lemma {:induction false} SpecStep(c: Controls, names: seq<string>, cmd: Cmd, hosted: bool)
    requires "" !in names && c.spec == Nested(names)
    ensures Apply(c, cmd, hosted).spec == Nested(names + Named(cmd))
  {
    if Named(cmd) == [] {
      assert names + Named(cmd) == names;
    } else {
      NestedSnoc(names, cmd.spec);
      NestedEmpty(names);
    }
  }

  /** Only no names at all make an empty spec, as long as the first is not empty. */
  lemma {:induction false} NestedEmpty(names: seq<string>)
    ensures Nested(names) == "" <==> names == [] || names == [""]
  {
    if |names| > 1 {
      assert Openings(|names| - 1) == "rx.merge(" + Openings(|names| - 2);
    } else if |names| == 1 {
      assert names[1..] == [];
    }
  }

  // ---------------------------------------------------------------- from the file to the commands

  predicate NoBreak(s: string) {
    forall c | c in s :: !IsBreak(c)
  }

  /** A text without a break is one line, and a break ends it; with `LinesConcat` this says what the lines of
      any text are. */
  lemma {:induction false} OneLine(s: string, c: char)
    requires NoBreak(s) && IsBreak(c)
    ensures Lines(s) == if s == "" then [] else [s]
    ensures Lines(s + [c]) == [s]
  {
    if s != "" {
      assert s == [s[0]] + s[1..] && s + [c] == [s[0]] + (s[1..] + [c]);
      OneLine(s[1..], c);
      if s[1..] != "" {
        LinesCons(s[0], s[1..]);
      }
      LinesCons(s[0], s[1..] + [c]);
      assert s[0] in s;
    } else {
      assert [c][1..] == "";
    }
  }

  /** The commands are those of the lines that hold one, each once, in order. */
  lemma {:induction false} CommandPlaces(parse: string -> Parsed, lines: seq<string>) returns (at: seq<nat>)
    ensures |at| == |Commands(parse, lines)| && forall i, j | 0 <= i < j < |at| :: at[i] < at[j]
    ensures forall n | 0 <= n < |at| :: at[n] < |lines| && parse(lines[at[n]]) == Command(Commands(parse, lines)[n])
    ensures forall i | 0 <= i < |lines| && parse(lines[i]).Command? :: i in at
  {
    at := [];
    if lines != [] {
      var front, last := lines[..|lines| - 1], lines[|lines| - 1];
      at := CommandPlaces(parse, front);
      assert lines == front + [last] && [last][1..] == [];
      CommandsConcat(parse, front, [last]);
      assert Commands(parse, []) == [];
      if parse(last).Command? {
        at := at + [|front|];
      }
    }
  }

  /** A batch is applied up to the first line that is no object or asks for a pace that is no number. */
  lemma {:induction false} PrefixExactly(parse: string -> Parsed, lines: seq<string>)
    ensures var done := Prefix(parse, lines);
            && done <= lines
            && (forall i | 0 <= i < |done| :: parse(lines[i]) != NotObject && parse(lines[i]) != Command(BadPace))
            && (|done| < |lines| ==> parse(lines[|done|]) == NotObject || parse(lines[|done|]) == Command(BadPace))
  {
    if lines != [] && !Stops(parse(lines[0])) {
      PrefixExactly(parse, lines[1..]);
      assert lines == [lines[0]] + lines[1..];
    }
  }
}
