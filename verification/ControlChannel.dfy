/**
 * The snapshot control channel (internal/snapshot/client.go): one connection, one request at a time,
 * and a client that poisons itself once an answer can no longer be told from a late one.
 */
module ControlChannel {
  import opened Options

  datatype Verb = Register | Checkpoint | Restore

  /** A line from the agent: a success (for Register: acknowledging what was asked or not), a refusal, or neither. */
  datatype Line = Ok(acknowledged: bool) | Refusal(reason: string) | Unusable

  /** ErrControlLost, with or without ErrOperationUncertain. */
  datatype Lost = Lost(uncertain: bool)

  datatype Returned = Answered(line: Line) | Abandoned | Failed(error: Lost)

  /** How the write of a request ended: all of it, some bytes of it, or none went out. */
  datatype Sending = Whole | Partly | Nothing

  /** Checkpoint and Restore may still be running in the agent when their answer is lost; Register may not. */
  function FailureAfter(verb: Verb, bytesOut: bool): Lost {
    Lost(!verb.Register? && bytesOut)
  }

  /** What the client makes of the line it read: None when it returns it to the caller. */
  function Rejects(verb: Verb, line: Line): Option<Lost> {
    match line
    case Unusable => Some(FailureAfter(verb, true))
    case Refusal(_) => None
    case Ok(acknowledged) => if verb.Register? && !acknowledged then Some(Lost(false)) else None
  }

  /**
   * What a call returns and how it leaves the channel, given how the write ends and which line, if
   * any, the read then yields. Only Checkpoint and Restore look at their context first.
   */
  ghost predicate Outcome(verb: Verb, ctxDone: bool, sending: Sending, read: Option<Line>,
                          broken: Option<Lost>, open: bool, r: Returned, broken': Option<Lost>, open': bool)
  {
    if broken.Some? then r == Failed(broken.value) && broken' == broken && open' == open
    else if ctxDone && !verb.Register? then r == Abandoned && broken' == None && open' == open
    else if sending.Whole? && read.Some? && !read.value.Unusable? && !(verb.Register? && read.value == Ok(false)) then
      r == Answered(read.value) && broken' == None && open' == open
    else
      r == Failed(Lost(!verb.Register? && !sending.Nothing?)) && broken' == Some(r.error) && !open'
  }

  /** The client object. `open` and `broken` are its connection and its latched error. */
  class Client {
    var open: bool
    var broken: Option<Lost>

    constructor ()
      ensures open && broken == None
    {
      open, broken := true, None;
    }

    /** Poisons the channel: the first cause is kept, and the connection is closed. */
    method Fail(cause: Lost) returns (error: Lost)
      modifies this
      ensures broken == Some(error) && error == (if old(broken).Some? then old(broken).value else cause)
      ensures open == (old(open) && old(broken).Some?)
    {
      if broken.None? {
        broken := Some(cause);
        open := false;
      }
      error := broken.value;
    }

    /** Checkpoint or Restore, given how the write ends and which line, if any, the read then yields. */
    method Request(verb: Verb, ctxDone: bool, sending: Sending, read: Option<Line>) returns (r: Returned)
      requires !verb.Register? && (broken.Some? ==> !open)
      modifies this
      ensures Outcome(verb, ctxDone, sending, read, old(broken), old(open), r, broken, open)
    {
      if broken.Some? {
        return Failed(broken.value);
      }
      if ctxDone {
        return Abandoned;
      }
      if !sending.Whole? {
        var error := Fail(if sending.Partly? then Lost(true) else Lost(false));
        return Failed(error);
      }
      if read.None? || read.value.Unusable? {
        var error := Fail(Lost(true));
        return Failed(error);
      }
      return Answered(read.value);
    }

    /** Register: does not look at the context first, and never leaves an uncertain outcome. */
    method RegisterChild(sending: Sending, read: Option<Line>) returns (r: Returned)
      requires broken.Some? ==> !open
      modifies this
      ensures Outcome(Register, false, sending, read, old(broken), old(open), r, broken, open)
      ensures broken.Some? && old(broken).None? ==> !broken.value.uncertain
    {
      if broken.Some? {
        return Failed(broken.value);
      }
      if !sending.Whole? || read.None? || read.value.Unusable? {
        var error := Fail(Lost(false));
        return Failed(error);
      }
      if read.value.Refusal? {
        return Answered(read.value);
      }
      if !read.value.acknowledged {
        var error := Fail(Lost(false));
        return Failed(error);
      }
      return Answered(read.value);
    }
  }

  // ----- client, agent and the stream between them

  datatype Step =
    | Call(verb: Verb, ctxDone: bool, sending: Sending)
    | AgentAnswers(line: Line)
    | ReadLine
    | ReadFails
    | Close

  datatype Pc = Ready | Awaiting(verb: Verb, request: nat)

  /** One returned call: the request it had sent, if it sent one, and what came back. */
  datatype Entry = Entry(request: Option<nat>, result: Returned)

  /**
   * `sent` lists the requests that went out whole, `answers` what the agent made of them, in order.
   * `inbox` holds the lines written by the agent and not yet read, each with the request it answers.
   */
  datatype State = State(
    open: bool,
    broken: Option<Lost>,
    pc: Pc,
    sent: seq<Verb>,
    answers: seq<Line>,
    inbox: seq<(nat, Line)>,
    log: seq<Entry>)

  ghost predicate Init(s: State) {
    s == State(true, None, Ready, [], [], [], [])
  }

  ghost predicate Possible(s: State, a: Step) {
    match a
    case Call(_, _, sending) => s.pc.Ready? && (!s.open ==> sending.Nothing?)
    case AgentAnswers(_) => |s.answers| < |s.sent|
    case ReadLine => s.pc.Awaiting? && s.open && s.inbox != []
    case ReadFails => s.pc.Awaiting?
    case Close => s.pc.Ready?
  }

  function Logged(s: State, request: Option<nat>, r: Returned): State {
    s.(pc := Ready, log := s.log + [Entry(request, r)])
  }

  /** fail(), when nothing was latched before. */
  function Poisoned(s: State, request: Option<nat>, error: Lost): State {
    Logged(s.(broken := Some(error), open := false), request, Failed(error))
  }

  ghost function Next(s: State, a: Step): State
    requires Possible(s, a)
  {
    match a
    case Call(verb, ctxDone, sending) =>
      if s.broken.Some? then Logged(s, None, Failed(s.broken.value))
      else if ctxDone && !verb.Register? then Logged(s, None, Abandoned)
      else if sending.Whole? then s.(sent := s.sent + [verb], pc := Awaiting(verb, |s.sent|))
      else Poisoned(s, None, FailureAfter(verb, sending.Partly?))
    case AgentAnswers(line) => s.(answers := s.answers + [line], inbox := s.inbox + [(|s.answers|, line)])
    case ReadLine =>
      var line, rest := s.inbox[0].1, s.(inbox := s.inbox[1..]);
      if Rejects(s.pc.verb, line).None? then Logged(rest, Some(s.pc.request), Answered(line))
      else Poisoned(rest, Some(s.pc.request), Rejects(s.pc.verb, line).value)
    case ReadFails =>
      Poisoned(s, Some(s.pc.request), FailureAfter(s.pc.verb, true))
    case Close => s.(open := false)
  }

  /** On a working channel at most the present request is unanswered, and only its answer can be in the stream. */
  ghost predicate InStep(s: State) {
    match s.pc
    case Ready => |s.answers| == |s.sent| && s.inbox == []
    case Awaiting(verb, request) =>
      && request + 1 == |s.sent| && s.sent[request] == verb
      && if |s.answers| == |s.sent| then s.inbox == [(request, s.answers[request])]
         else |s.answers| == request && s.inbox == []
  }

  ghost predicate EntryOk(s: State, e: Entry) {
    match e.result
    case Answered(line) => e.request.Some? && e.request.value < |s.answers| && line == s.answers[e.request.value]
    case Failed(error) => s.broken == Some(error)
    case Abandoned => e.request.None?
  }

  ghost predicate Inv(s: State) {
    && |s.answers| <= |s.sent|
    && (s.broken.None? ==> InStep(s))
    && (s.broken.Some? ==> s.pc.Ready? && !s.open)
    && forall i :: 0 <= i < |s.log| ==> EntryOk(s, s.log[i])
  }

  lemma StepInv(s: State, a: Step)
    requires Inv(s) && Possible(s, a)
    ensures Inv(Next(s, a))
  {
    var t := Next(s, a);
    forall i | 0 <= i < |t.log| ensures EntryOk(t, t.log[i]) {
      if i < |s.log| {
        assert EntryOk(s, s.log[i]);
      }
    }
  }

  // ----- runs

  ghost predicate CanRun(s: State, steps: seq<Step>)
    decreases |steps|
  {
    steps == [] || (Possible(s, steps[0]) && CanRun(Next(s, steps[0]), steps[1..]))
  }

  ghost function Run(s: State, steps: seq<Step>): State
    requires CanRun(s, steps)
    decreases |steps|
  {
    if steps == [] then s else Run(Next(s, steps[0]), steps[1..])
  }

  ghost predicate Reachable(s: State) {
    exists start, steps :: Init(start) && CanRun(start, steps) && Run(start, steps) == s
  }

  lemma {:induction false} RunInv(s: State, steps: seq<Step>)
    requires Inv(s) && CanRun(s, steps)
    ensures Inv(Run(s, steps))
    decreases |steps|
  {
    if steps != [] {
      StepInv(s, steps[0]);
      RunInv(Next(s, steps[0]), steps[1..]);
    }
  }

  lemma ReachableInv(s: State)
    requires Reachable(s)
    ensures Inv(s)
  {
    var start, steps :| Init(start) && CanRun(start, steps) && Run(start, steps) == s;
    RunInv(start, steps);
  }

  /** An answer handed to a caller is the agent's answer to that caller's own request, however late others come. */
  lemma OwnAnswers(s: State, i: nat)
    requires Reachable(s) && i < |s.log| && s.log[i].result.Answered?
    ensures s.log[i].request.Some? && s.log[i].request.value < |s.answers|
    ensures s.log[i].result.line == s.answers[s.log[i].request.value]
  {
    ReachableInv(s);
    assert EntryOk(s, s.log[i]);
  }

  // ----- when the outcome of an operation is uncertain, read off the run

  /** The last call begun in a run. */
  function LastCall(steps: seq<Step>): (call: Option<Step>)
    ensures call.Some? ==> call.value.Call? && call.value in steps
    decreases |steps|
  {
    if steps == [] then None
    else
      var last := steps[|steps| - 1];
      if last.Call? then Some(last) else LastCall(steps[..|steps| - 1])
  }

  /** The last line the agent wrote in a run. */
  function LastLine(steps: seq<Step>): Option<Line>
    decreases |steps|
  {
    if steps == [] then None
    else
      var last := steps[|steps| - 1];
      if last.AgentAnswers? then Some(last.line) else LastLine(steps[..|steps| - 1])
  }

  /**
   * The step after `before` leaves a Checkpoint or Restore with an unknown outcome: part of the request
   * went out, or all of it and then the read failed or yielded no usable line.
   */
  ghost predicate LeavesUncertain(before: seq<Step>, a: Step) {
    match a
    case Call(verb, ctxDone, sending) => !verb.Register? && !ctxDone && sending.Partly?
    case ReadFails => LastCall(before).Some? && !LastCall(before).value.verb.Register?
    case ReadLine =>
      LastCall(before).Some? && !LastCall(before).value.verb.Register? && LastLine(before) == Some(Unusable)
    case _ => false
  }

  /** On a working channel a call that waits is the last one begun, and the line to be read the last one written. */
  ghost predicate Tracks(steps: seq<Step>, s: State) {
    s.broken.None? ==>
      && (s.pc.Awaiting? ==>
            LastCall(steps).Some? && LastCall(steps).value.verb == s.pc.verb && LastCall(steps).value.sending.Whole?)
      && (s.inbox != [] ==> LastLine(steps) == Some(s.inbox[|s.inbox| - 1].1))
  }

  lemma {:induction false} RunSnoc(s: State, steps: seq<Step>, a: Step)
    requires CanRun(s, steps + [a])
    ensures CanRun(s, steps) && Possible(Run(s, steps), a)
    ensures Run(s, steps + [a]) == Next(Run(s, steps), a)
    decreases |steps|
  {
    var all := steps + [a];
    if steps == [] {
      assert all[1..] == [];
    } else {
      assert all[1..] == steps[1..] + [a];
      RunSnoc(Next(s, steps[0]), steps[1..], a);
    }
  }

  lemma {:induction false} RunTracks(s: State, steps: seq<Step>)
    requires Init(s) && CanRun(s, steps)
    ensures Tracks(steps, Run(s, steps)) && Inv(Run(s, steps))
    decreases |steps|
  {
    RunInv(s, steps);
    if steps != [] {
      var last := |steps| - 1;
      var front, a := steps[..last], steps[last];
      assert steps == front + [a];
      RunSnoc(s, front, a);
      RunTracks(s, front);
      hide Inv, CanRun, Run;
      TracksStep(Run(s, front), front, a);
    }
  }

  lemma TracksStep(s: State, steps: seq<Step>, a: Step)
    requires Inv(s) && Tracks(steps, s) && Possible(s, a)
    ensures Tracks(steps + [a], Next(s, a))
  {
    assert (steps + [a])[..|steps|] == steps;
  }

  /**
   * The step after `before` breaks a working channel: a call that is not abandoned and does not go out
   * whole, a failed read, a line that is no reply, or one that does not acknowledge a Register.
   */
  ghost predicate Breaks(before: seq<Step>, a: Step) {
    match a
    case Call(verb, ctxDone, sending) => !sending.Whole? && (verb.Register? || !ctxDone)
    case ReadFails => true
    case ReadLine =>
      || LastLine(before) == Some(Unusable)
      || (LastLine(before) == Some(Ok(false)) && LastCall(before).Some? && LastCall(before).value.verb.Register?)
    case _ => false
  }

  /** What a step does to a working channel: it breaks it exactly so, and otherwise a reply is handed on as it is. */
  lemma BreaksExactly(s: State, steps: seq<Step>, a: Step)
    requires Init(s) && CanRun(s, steps + [a]) && CanRun(s, steps) && Run(s, steps).broken.None?
    ensures var u, t := Run(s, steps), Run(s, steps + [a]);
            && (t.broken.Some? <==> Breaks(steps, a))
            && (Breaks(steps, a) ==> !t.open && t.pc.Ready? && |t.log| == |u.log| + 1 && u.log <= t.log
                                     && t.log[|u.log|].result == Failed(t.broken.value))
            && (!Breaks(steps, a) && !a.Close? ==> t.open == u.open)
            && (a.ReadLine? && !Breaks(steps, a) ==>
                  && LastLine(steps).Some? && u.pc.Awaiting?
                  && t.log == u.log + [Entry(Some(u.pc.request), Answered(LastLine(steps).value))] && t.pc.Ready?)
            && (a.Call? && !Breaks(steps, a) ==>
                  if a.ctxDone && !a.verb.Register? then t == u.(log := u.log + [Entry(None, Abandoned)])
                  else t.sent == u.sent + [a.verb] && t.pc == Awaiting(a.verb, |u.sent|) && t.log == u.log)
  {
    RunSnoc(s, steps, a);
    RunTracks(s, steps);
  }

  /** The step that breaks the channel decides whether the error is marked uncertain. */
  lemma FailureExactly(s: State, steps: seq<Step>, a: Step)
    requires Inv(s) && Tracks(steps, s) && Possible(s, a) && s.broken.None? && Next(s, a).broken.Some?
    ensures Next(s, a).broken.value.uncertain <==> LeavesUncertain(steps, a)
  {
  }

  /**
   * Over every run that breaks the channel: the error latched for good is marked uncertain exactly when
   * the step that broke it left a Checkpoint or Restore with an unknown outcome, and every call that
   * failed returned that error.
   */
  lemma {:induction false} UncertainExactly(s: State, steps: seq<Step>) returns (k: nat)
    requires Init(s) && CanRun(s, steps) && Run(s, steps).broken.Some?
    ensures k < |steps| && CanRun(s, steps[..k]) && Run(s, steps[..k]).broken.None?
    ensures CanRun(s, steps[..k + 1]) && Run(s, steps[..k + 1]).broken == Run(s, steps).broken
    ensures Run(s, steps).broken.value.uncertain <==> LeavesUncertain(steps[..k], steps[k])
    ensures var log := Run(s, steps).log;
            forall i :: 0 <= i < |log| && log[i].result.Failed? ==> log[i].result.error == Run(s, steps).broken.value
    decreases |steps|
  {
    var last := |steps| - 1;
    var front, a := steps[..last], steps[last];
    assert steps == front + [a];
    RunSnoc(s, front, a);
    RunTracks(s, front);
    RunInv(s, steps);
    var t := Run(s, steps);
    forall i | 0 <= i < |t.log| && t.log[i].result.Failed? ensures t.log[i].result.error == t.broken.value {
      assert EntryOk(t, t.log[i]);
    }
    if Run(s, front).broken.None? {
      FailureExactly(Run(s, front), front, a);
      k := last;
      assert steps[..k + 1] == steps;
    } else {
      k := UncertainExactly(s, front);
      assert steps[..k] == front[..k] && steps[k] == front[k] && steps[..k + 1] == front[..k + 1];
    }
  }

  /** After the first failure nothing more is sent and every further call returns that failure. */
  lemma {:induction false} LatchedForever(s: State, steps: seq<Step>)
    requires Inv(s) && s.broken.Some? && CanRun(s, steps)
    ensures var t := Run(s, steps);
            && t.broken == s.broken && t.sent == s.sent && !t.open
            && s.log <= t.log
            && forall i :: |s.log| <= i < |t.log| ==> t.log[i] == Entry(None, Failed(s.broken.value))
    decreases |steps|
  {
    if steps != [] {
      StepInv(s, steps[0]);
      LatchedForever(Next(s, steps[0]), steps[1..]);
    }
  }

  /** The danger the latch averts: a late answer is in the stream, and the next request would read it as its own. */
  lemma LateAnswerStays(s: State, line: Line)
    requires Reachable(s) && s.broken.None? && s.pc.Awaiting? && |s.answers| < |s.sent|
    ensures CanRun(s, [ReadFails, AgentAnswers(line)])
    ensures var t := Run(s, [ReadFails, AgentAnswers(line)]);
            t.inbox == [(s.pc.request, line)] && t.broken.Some? && !t.open
  {
    ReachableInv(s);
    var steps := [ReadFails, AgentAnswers(line)];
    var t := Next(s, ReadFails);
    var u := Next(t, AgentAnswers(line));
    assert CanRun(u, []) && Run(u, []) == u;
    var rest := [AgentAnswers(line)];
    assert rest[0] == AgentAnswers(line) && rest[1..] == [];
    assert CanRun(t, rest) && Run(t, rest) == u;
    assert steps[0] == ReadFails && steps[1..] == rest;
  }

  /** A call that nothing else comes between goes through the steps above as the client's methods say. */
  lemma CallIsRun(s: State, verb: Verb, ctxDone: bool, sending: Sending, read: Option<Line>)
    returns (steps: seq<Step>, e: Entry)
    requires Inv(s) && s.pc.Ready? && (!s.open ==> sending.Nothing?)
    ensures steps != [] && steps[0] == Call(verb, ctxDone, sending) && CanRun(s, steps)
    ensures var t := Run(s, steps);
            && t.pc.Ready? && t.log == s.log + [e]
            && Outcome(verb, ctxDone, sending, read, s.broken, s.open, e.result, t.broken, t.open)
  {
    var call := Call(verb, ctxDone, sending);
    var s1 := Next(s, call);
    var rest := [];
    var t := s1;
    assert CanRun(t, []) && Run(t, []) == t;
    if s1.pc.Awaiting? {
      if read.None? {
        rest, t := RunBack(s1, ReadFails, [], Next(s1, ReadFails));
      } else {
        var s2 := Next(s1, AgentAnswers(read.value));
        rest, t := RunBack(s2, ReadLine, [], Next(s2, ReadLine));
        rest, t := RunBack(s1, AgentAnswers(read.value), rest, t);
      }
    }
    steps, t := RunBack(s, call, rest, t);
    e := t.log[|s.log|];
  }

  lemma RunBack(s: State, a: Step, rest: seq<Step>, end: State) returns (steps: seq<Step>, t: State)
    requires Possible(s, a) && CanRun(Next(s, a), rest) && Run(Next(s, a), rest) == end
    ensures steps == [a] + rest && CanRun(s, steps) && t == Run(s, steps) == end
  {
    steps := [a] + rest;
    assert steps[0] == a && steps[1..] == rest;
    t := end;
  }
}
