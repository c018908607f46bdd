/**
 * Multiline log entries: MultilineBuffer (internal/logger/multiline.go) and the flush timer that
 * ProcessWriter keeps for it (internal/logger/process_writer.go).
 */
module Multiline {
  import opened Options

  /** `starts` stands for the compiled start pattern. */
  datatype Config = Config(enabled: bool, hasPattern: bool, starts: string -> bool, maxLines: int)

  type Timer = nat

  /**
   * `groups` are the entries that left the buffer so far, each as the lines it consists of. `live` are
   * the timers that have not been stopped and whose callback has not run yet.
   */
  datatype State = State(
    lines: seq<string>,
    groups: seq<seq<string>>,
    flushTimer: Option<Timer>,
    live: set<Timer>,
    nextTimer: Timer)

  const EMPTY := State([], [], None, {}, 0)

  /** MultilineBuffer.flush, for a buffer that is not empty. */
  function Flushed(s: State): State {
    s.(groups := s.groups + [s.lines], lines := [])
  }

  /** MultilineBuffer.Add. */
  function Added(cfg: Config, s: State, line: string): State {
    if !cfg.enabled || !cfg.hasPattern then s.(groups := s.groups + [[line]])
    else if cfg.starts(line) && s.lines != [] then Flushed(s).(lines := [line])
    else
      var longer := s.(lines := s.lines + [line]);
      if |longer.lines| >= cfg.maxLines then Flushed(longer) else longer
  }

  function Stopped(s: State): State {
    s.(live := if s.flushTimer.Some? then s.live - {s.flushTimer.value} else s.live, flushTimer := None)
  }

  /** armFlushTimerLocked. */
  function Armed(s: State): State {
    if s.lines == [] then Stopped(s)
    else
      Stopped(s).(flushTimer := Some(s.nextTimer), live := Stopped(s).live + {s.nextTimer},
                  nextTimer := s.nextTimer + 1)
  }

  datatype Event =
    | Line(line: string)      // processLine
    | TimedOut                // Write finds the buffered entry past its timeout
    | TimerRuns(t: Timer)     // flushOnTimeout
    | FinalFlush              // Flush

  /** A callback that has fired and waits for the lock runs even if its timer is stopped meanwhile. */
  predicate Possible(s: State, e: Event) {
    e.TimerRuns? ==> e.t < s.nextTimer
  }

  function Next(cfg: Config, s: State, e: Event): State
    requires Possible(s, e)
  {
    match e
    case Line(line) => if cfg.enabled then Armed(Added(cfg, s, line)) else Added(cfg, s, line)
    case TimedOut => if s.lines == [] then s else Flushed(s)
    case TimerRuns(t) =>
      var ran := s.(live := s.live - {t});
      if s.lines == [] then ran else Flushed(ran).(flushTimer := None)
    case FinalFlush => Stopped(if s.lines == [] then s else Flushed(s))
  }

  // ----- entries as text

  function Join(lines: seq<string>): string
    decreases |lines|
  {
    if lines == [] then "" else if |lines| == 1 then lines[0] else lines[0] + "\n" + Join(lines[1..])
  }

  /** The lines of an entry, read back from its text. */
  function Unjoin(text: string): (lines: seq<string>)
    ensures lines != []
    decreases |text|
  {
    if text == "" then [""]
    else
      var rest := Unjoin(text[1..]);
      if text[0] == '\n' then [""] + rest else [[text[0]] + rest[0]] + rest[1..]
  }

  /** What reaches processEntry: with multiline buffering, everything but an entry without text. */
  function Emitted(cfg: Config, groups: seq<seq<string>>): seq<string>
    decreases |groups|
  {
    if groups == [] then []
    else
      var front, text := Emitted(cfg, groups[..|groups| - 1]), Join(groups[|groups| - 1]);
      if cfg.enabled && text == "" then front else front + [text]
  }

  class MultilineWriter {
    const cfg: Config
    var lines: seq<string>
    var entries: seq<string>
    var flushTimer: Option<Timer>
    var live: set<Timer>
    var nextTimer: Timer
    ghost var groups: seq<seq<string>>

    ghost function Now(): State
      reads this
    {
      State(lines, groups, flushTimer, live, nextTimer)
    }

    /** The entries passed on are those the groups stand for. */
    ghost predicate Valid()
      reads this
    {
      entries == Emitted(cfg, groups)
    }

    constructor (cfg: Config)
      ensures this.cfg == cfg && Now() == EMPTY && Valid()
    {
      this.cfg := cfg;
      lines, entries, flushTimer, live, nextTimer, groups := [], [], None, {}, 0, [];
    }

    method ProcessEntry(entry: string)
      modifies this`entries
      ensures entries == old(entries) + [entry]
    {
      entries := entries + [entry];
    }

    /** The lines leave the buffer as one entry, which is passed on unless it has no text. */
    method PassOn(group: seq<string>)
      requires Valid()
      modifies this`entries, this`groups
      ensures Valid() && groups == old(groups) + [group]
    {
      var entry := Join(group);
      groups := groups + [group];
      assert groups[..|groups| - 1] == old(groups);
      if !(cfg.enabled && entry == "") {
        ProcessEntry(entry);
      }
    }

    /** MultilineBuffer.Add, passing on the entry it completes. */
    method Add(line: string)
      requires Valid()
      modifies this`lines, this`entries, this`groups
      ensures Valid() && Now() == Added(cfg, old(Now()), line)
    {
      hide Emitted;
      if !cfg.enabled || !cfg.hasPattern {
        PassOn([line]);
      } else if cfg.starts(line) && |lines| > 0 {
        PassOn(lines);
        lines := [line];
      } else {
        lines := lines + [line];
        if |lines| >= cfg.maxLines {
          PassOn(lines);
          lines := [];
        }
      }
    }

    method ProcessLine(line: string)
      requires Valid()
      modifies this
      ensures Valid() && Now() == Next(cfg, old(Now()), Line(line))
    {
      hide Emitted, Added;
      Add(line);
      if cfg.enabled {
        ArmFlushTimer();
      }
    }

    method ArmFlushTimer()
      modifies this`flushTimer, this`live, this`nextTimer
      ensures Now() == Armed(old(Now()))
    {
      if flushTimer.Some? {
        live := live - {flushTimer.value};
      }
      if |lines| == 0 {
        flushTimer := None;
        return;
      }
      flushTimer := Some(nextTimer);
      live := live + {nextTimer};
      nextTimer := nextTimer + 1;
    }

    method FlushOnTimeout(t: Timer)
      requires Valid() && t < nextTimer
      modifies this
      ensures Valid() && Now() == Next(cfg, old(Now()), TimerRuns(t))
    {
      live := live - {t};
      if |lines| == 0 {
        return;
      }
      PassOn(lines);
      lines := [];
      flushTimer := None;
    }

    method Flush()
      requires Valid()
      modifies this
      ensures Valid() && Now() == Next(cfg, old(Now()), FinalFlush)
    {
      if |lines| > 0 {
        PassOn(lines);
        lines := [];
      }
      if flushTimer.Some? {
        live := live - {flushTimer.value};
        flushTimer := None;
      }
    }
  }

  // ----- what holds through every interleaving

  function Flatten(groups: seq<seq<string>>): seq<string>
    decreases |groups|
  {
    if groups == [] then [] else Flatten(groups[..|groups| - 1]) + groups[|groups| - 1]
  }

  /** No start line after the first, and no more lines than allowed (one, for a limit below that). */
  ghost predicate GoodGroup(cfg: Config, g: seq<string>) {
    && g != []
    && |g| <= (if cfg.maxLines > 1 then cfg.maxLines else 1)
    && (cfg.enabled && cfg.hasPattern ==> OneStart(cfg, g))
  }

  ghost predicate OneStart(cfg: Config, g: seq<string>) {
    forall i :: 0 < i < |g| ==> !cfg.starts(g[i])
  }

  ghost predicate Inv(cfg: Config, s: State) {
    && GoodGroups(cfg, s.groups) && GoodLines(cfg, s.lines)
    && (s.lines != [] ==> s.flushTimer.Some? && s.flushTimer.value in s.live)
  }

  ghost predicate GoodGroups(cfg: Config, groups: seq<seq<string>>) {
    forall i :: 0 <= i < |groups| ==> GoodGroup(cfg, groups[i])
  }

  ghost predicate GoodLines(cfg: Config, lines: seq<string>) {
    lines != [] ==> cfg.enabled && cfg.hasPattern && |lines| < cfg.maxLines && OneStart(cfg, lines)
  }

  lemma PassedOn(cfg: Config, groups: seq<seq<string>>, g: seq<string>)
    requires GoodGroups(cfg, groups) && GoodGroup(cfg, g)
    ensures GoodGroups(cfg, groups + [g]) && Flatten(groups + [g]) == Flatten(groups) + g
  {
    assert (groups + [g])[..|groups|] == groups;
  }

  lemma AddedOk(cfg: Config, s: State, line: string)
    requires GoodGroups(cfg, s.groups) && GoodLines(cfg, s.lines)
    ensures var t := Added(cfg, s, line);
            && GoodGroups(cfg, t.groups) && GoodLines(cfg, t.lines)
            && Flatten(t.groups) + t.lines == Flatten(s.groups) + s.lines + [line]
  {
    hide Flatten, GoodGroups;
    var longer := s.lines + [line];
    if !cfg.enabled || !cfg.hasPattern {
      PassedOn(cfg, s.groups, [line]);
    } else if cfg.starts(line) && s.lines != [] {
      PassedOn(cfg, s.groups, s.lines);
    } else {
      assert OneStart(cfg, longer);
      if |longer| >= cfg.maxLines {
        PassedOn(cfg, s.groups, longer);
      }
    }
  }

  lemma StepInv(cfg: Config, s: State, e: Event)
    requires Inv(cfg, s) && Possible(s, e)
    ensures Inv(cfg, Next(cfg, s, e))
    ensures Flatten(Next(cfg, s, e).groups) + Next(cfg, s, e).lines ==
            Flatten(s.groups) + s.lines + if e.Line? then [e.line] else []
  {
    assert GoodGroups(cfg, s.groups) && GoodLines(cfg, s.lines);
    if e.Line? {
      AddedOk(cfg, s, e.line);
      hide Added, Flatten;
    } else if s.lines != [] {
      PassedOn(cfg, s.groups, s.lines);
      hide Flatten;
    }
  }

  ghost predicate CanRun(cfg: Config, s: State, events: seq<Event>)
    decreases |events|
  {
    events == [] || (Possible(s, events[0]) && CanRun(cfg, Next(cfg, s, events[0]), events[1..]))
  }

  ghost function Run(cfg: Config, s: State, events: seq<Event>): State
    requires CanRun(cfg, s, events)
    decreases |events|
  {
    if events == [] then s else Run(cfg, Next(cfg, s, events[0]), events[1..])
  }

  function LinesOf(events: seq<Event>): seq<string>
    decreases |events|
  {
    if events == [] then [] else (if events[0].Line? then [events[0].line] else []) + LinesOf(events[1..])
  }

  lemma {:induction false} RunKeeps(cfg: Config, s: State, events: seq<Event>)
    requires Inv(cfg, s) && CanRun(cfg, s, events)
    ensures Inv(cfg, Run(cfg, s, events))
    ensures Flatten(Run(cfg, s, events).groups) + Run(cfg, s, events).lines ==
            Flatten(s.groups) + s.lines + LinesOf(events)
    decreases |events|
  {
    hide Next, Flatten, Inv;
    if events == [] {
      assert Flatten(s.groups) + s.lines + [] == Flatten(s.groups) + s.lines;
    } else {
      StepInv(cfg, s, events[0]);
      RunKeeps(cfg, Next(cfg, s, events[0]), events[1..]);
      var head := if events[0].Line? then [events[0].line] else [];
      Associative(Flatten(s.groups) + s.lines, head, LinesOf(events[1..]));
    }
  }

  lemma Associative(a: seq<string>, b: seq<string>, c: seq<string>)
    ensures (a + b) + c == a + (b + c)
  {
  }

  /**
   * However lines, timeouts and flushes interleave: the entries and the buffer hold exactly the input
   * lines in order, entries keep their limits, and a filled buffer has a timer that will empty it.
   */
  lemma NothingLostOrReordered(cfg: Config, events: seq<Event>)
    requires CanRun(cfg, EMPTY, events)
    ensures var s := Run(cfg, EMPTY, events);
            && Flatten(s.groups) + s.lines == LinesOf(events)
            && GoodGroups(cfg, s.groups)
            && (s.lines != [] ==> s.flushTimer.Some? && s.flushTimer.value in s.live)
  {
    RunKeeps(cfg, EMPTY, events);
    assert Flatten([]) + [] + LinesOf(events) == LinesOf(events);
  }

  /**
   * The entry that an event ends, given the lines pending before it: with buffering on, a line ends one
   * only if it starts a new one or fills the limit; every flush ends what is pending.
   */
  function Ending(cfg: Config, pending: seq<string>, e: Event): seq<seq<string>> {
    if e.Line? then
      if !(cfg.enabled && cfg.hasPattern) then [[e.line]]
      else if pending != [] && cfg.starts(e.line) then [pending]
      else if |pending| + 1 >= cfg.maxLines then [pending + [e.line]]
      else []
    else if pending != [] then [pending] else []
  }

  lemma {:induction false} RunSnoc(cfg: Config, s: State, events: seq<Event>, e: Event)
    requires CanRun(cfg, s, events + [e])
    ensures CanRun(cfg, s, events) && Possible(Run(cfg, s, events), e)
    ensures Run(cfg, s, events + [e]) == Next(cfg, Run(cfg, s, events), e)
    decreases |events|
  {
    var all := events + [e];
    if events == [] {
      assert all[1..] == [];
    } else {
      assert all[1..] == events[1..] + [e];
      RunSnoc(cfg, Next(cfg, s, events[0]), events[1..], e);
    }
  }

  /** Along every run an entry ends exactly where it has to, and until then its lines are joined. */
  lemma EntriesEndExactly(cfg: Config, events: seq<Event>, e: Event)
    requires CanRun(cfg, EMPTY, events + [e]) && CanRun(cfg, EMPTY, events)
    ensures var ended := Run(cfg, EMPTY, events).groups;
            && |Flatten(ended)| <= |LinesOf(events)|
            && Run(cfg, EMPTY, events + [e]).groups ==
               ended + Ending(cfg, LinesOf(events)[|Flatten(ended)|..], e)
  {
    RunSnoc(cfg, EMPTY, events, e);
    RunKeeps(cfg, EMPTY, events);
    NothingLostOrReordered(cfg, events);
    var s := Run(cfg, EMPTY, events);
    hide Run, CanRun, Flatten, Ending, Next, Inv, GoodGroups;
    StepEnds(cfg, s, e);
    assert LinesOf(events)[|Flatten(s.groups)|..] == s.lines;
  }

  lemma StepEnds(cfg: Config, s: State, e: Event)
    requires Inv(cfg, s) && Possible(s, e)
    ensures Next(cfg, s, e).groups == s.groups + Ending(cfg, s.lines, e)
  {
  }

  /** Entry `g`, followed by a line, is full or is followed by the start of another. */
  ghost predicate Apart(cfg: Config, g: seq<string>, next: string) {
    |g| >= cfg.maxLines || cfg.starts(next)
  }

  ghost predicate ApartAt(cfg: Config, groups: seq<seq<string>>, i: int)
    requires 0 < i < |groups|
  {
    groups[i] != [] && Apart(cfg, groups[i - 1], groups[i][0])
  }

  ghost predicate Maximal(cfg: Config, s: State) {
    && (forall i :: 0 < i < |s.groups| ==> ApartAt(cfg, s.groups, i))
    && (s.groups != [] ==>
          var last := s.groups[|s.groups| - 1];
          if s.lines == [] then |last| >= cfg.maxLines else Apart(cfg, last, s.lines[0]))
  }

  lemma StaysMaximal(cfg: Config, s: State, line: string)
    requires cfg.enabled && cfg.hasPattern && Maximal(cfg, s) && Possible(s, Line(line))
    ensures Maximal(cfg, Next(cfg, s, Line(line)))
  {
    var t := Next(cfg, s, Line(line));
    forall i | 0 < i < |t.groups| ensures ApartAt(cfg, t.groups, i) {
      if i < |s.groups| {
        assert ApartAt(cfg, s.groups, i) && t.groups[i] == s.groups[i] && t.groups[i - 1] == s.groups[i - 1];
      }
    }
  }

  /** Without timeouts and flushes, no two neighbouring entries could have been one. */
  lemma {:induction false} EntriesAreMaximal(cfg: Config, events: seq<Event>)
    requires cfg.enabled && cfg.hasPattern && CanRun(cfg, EMPTY, events)
    requires forall i :: 0 <= i < |events| ==> events[i].Line?
    ensures Maximal(cfg, Run(cfg, EMPTY, events))
    decreases |events|
  {
    if events != [] {
      var front, e := events[..|events| - 1], events[|events| - 1];
      assert events == front + [e];
      RunSnoc(cfg, EMPTY, front, e);
      EntriesAreMaximal(cfg, front);
      hide Run, CanRun, Maximal, Next;
      StaysMaximal(cfg, Run(cfg, EMPTY, front), e.line);
    }
  }

  /** After every line there is a timer exactly if something is pending, and it is a new one. */
  lemma TimerExactly(cfg: Config, s: State, line: string)
    requires cfg.enabled
    ensures var t := Next(cfg, s, Line(line));
            && (t.flushTimer.Some? <==> t.lines != [])
            && (t.flushTimer.Some? ==> t.flushTimer.value == s.nextTimer < t.nextTimer && s.nextTimer in t.live)
            && (s.flushTimer.Some? && s.flushTimer.value < s.nextTimer ==> s.flushTimer.value !in t.live)
    ensures Next(cfg, s, FinalFlush).flushTimer.None?
    ensures s.lines != [] ==>
              forall t :: 0 <= t < s.nextTimer ==> Next(cfg, s, TimerRuns(t)).flushTimer.None?
  {
  }

  /** After the final Flush nothing is left in the buffer. */
  lemma FinalFlushEmpties(cfg: Config, events: seq<Event>)
    requires CanRun(cfg, EMPTY, events)
    ensures var s := Run(cfg, EMPTY, events);
            Possible(s, FinalFlush) && Next(cfg, s, FinalFlush).lines == []
            && Flatten(Next(cfg, s, FinalFlush).groups) == LinesOf(events)
  {
    RunKeeps(cfg, EMPTY, events);
    var s := Run(cfg, EMPTY, events);
    StepInv(cfg, s, FinalFlush);
    var t := Next(cfg, s, FinalFlush);
    assert Flatten(t.groups) + t.lines == Flatten(t.groups);
    assert Flatten([]) + [] + LinesOf(events) == LinesOf(events);
    assert Flatten(s.groups) + s.lines + [] == Flatten(s.groups) + s.lines;
  }

  /** The text of an entry determines its lines. */
  lemma {:induction false} UnjoinJoin(lines: seq<string>)
    requires lines != [] && forall i :: 0 <= i < |lines| ==> '\n' !in lines[i]
    ensures Unjoin(Join(lines)) == lines
    decreases |lines|, if lines == [] then 0 else |lines[0]|
  {
    if lines[0] == "" {
      if |lines| > 1 {
        UnjoinJoin(lines[1..]);
        assert Join(lines)[0] == '\n' && Join(lines)[1..] == Join(lines[1..]);
        assert lines == [""] + lines[1..];
      }
    } else {
      var c, shorter := lines[0][0], lines[0 := lines[0][1..]];
      assert shorter[1..] == lines[1..];
      UnjoinJoin(shorter);
      assert Join(lines)[0] == c && Join(lines)[1..] == Join(shorter);
      assert [c] + shorter[0] == lines[0];
      assert lines == [lines[0]] + lines[1..];
    }
  }

  /** The only entry dropped for having no text is a single empty line. */
  lemma OnlyEmptyLineDropped(g: seq<string>)
    requires g != []
    ensures Join(g) == "" <==> g == [""]
  {
  }

  function UnjoinAll(entries: seq<string>): seq<string>
    decreases |entries|
  {
    if entries == [] then [] else UnjoinAll(entries[..|entries| - 1]) + Unjoin(entries[|entries| - 1])
  }

  /** The groups without those that are a single empty line, which buffering drops. */
  function WithText(cfg: Config, groups: seq<seq<string>>): seq<seq<string>>
    decreases |groups|
  {
    if groups == [] then []
    else
      var front, g := WithText(cfg, groups[..|groups| - 1]), groups[|groups| - 1];
      if cfg.enabled && g == [""] then front else front + [g]
  }

  ghost predicate NewlineFree(g: seq<string>) {
    forall i :: 0 <= i < |g| ==> '\n' !in g[i]
  }

  /** Reading the emitted entries back line by line gives the lines of all groups but the dropped ones. */
  lemma {:induction false} EntriesGiveBackLines(cfg: Config, groups: seq<seq<string>>)
    requires forall i :: 0 <= i < |groups| ==> groups[i] != [] && NewlineFree(groups[i])
    ensures UnjoinAll(Emitted(cfg, groups)) == Flatten(WithText(cfg, groups))
    decreases |groups|
  {
    if groups != [] {
      var front, g := groups[..|groups| - 1], groups[|groups| - 1];
      EntriesGiveBackLines(cfg, front);
      OnlyEmptyLineDropped(g);
      UnjoinJoin(g);
      hide Join, Unjoin;
      if !(cfg.enabled && g == [""]) {
        assert (Emitted(cfg, front) + [Join(g)])[..|Emitted(cfg, front)|] == Emitted(cfg, front);
        assert (WithText(cfg, front) + [g])[..|WithText(cfg, front)|] == WithText(cfg, front);
      }
    }
  }
}
