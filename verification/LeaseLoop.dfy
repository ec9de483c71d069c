/** The upscale worker's lease loop and command handler (worker/internal/agent/leaseloop.go, commands.go), within
    one connection.  A step is one stretch of the loop goroutine or of a goroutine running a command, in any
    order.  Segments are numbered as they start; a segment's cancel function is its number. */
module LeaseLoop {
  import opened Optional

  type Segment = nat

  const FIRST_SEQ := 2

  datatype Pc =
    | Top                       // head of the loop, before ctx.Err()
    | Selecting                 // before the drain check
    | Requesting                // drain was open; about to send
    | Awaiting                  // waiting for the grant
    | Idling                    // empty grant
    | Granted                   // about to start a segment
    | Processing(seg: Segment)
    | Finishing(seg: Segment)   // cancel function reset, own cancel still to be called
    | Parked                    // drained, waiting for the context
    | Ended

  /** A cancel command that has read the function but not called it yet; `before` is how many segments had
      started when it read. */
  datatype Pending = Pending(fn: Option<Segment>, before: nat)

  datatype State = State(pc: Pc, nextSeq: nat, sent: seq<nat>, started: nat, ctxDone: bool,
                         cancelFn: Option<Segment>, pending: seq<Pending>, cancelled: set<Segment>,
                         drainClosed: bool, shutdownClosed: bool, shutdowns: nat, sentAfterDrain: nat)

  datatype Grant = Empty | Job | Failed

  datatype Step =
    | CtxCancel
    | CtxCheck
    | DrainCheck
    | Send(room: bool)
    | ReadGrant(grant: Grant)
    | IdleCtx | IdleDrain | IdleTimer
    | SegmentStart
    | SegmentReset
    | SegmentEnd
    | Unpark
    | CancelRead                // Cancel up to its unlock
    | CancelFire(i: nat)        // the call of the function it read
    | Drain
    | ShutdownDrain             // Shutdown: its drain ...
    | ShutdownClose             // ... and then its own close

  const START := State(Top, FIRST_SEQ, [], 0, false, None, [], {}, false, false, 0, 0)

  predicate Enabled(s: State, step: Step) {
    match step
    case CtxCheck => s.pc.Top?
    case DrainCheck => s.pc.Selecting?
    case Send(_) => s.pc.Requesting?
    case ReadGrant(_) => s.pc.Awaiting?
    case IdleCtx => s.pc.Idling? && s.ctxDone
    case IdleDrain => s.pc.Idling? && s.drainClosed
    case IdleTimer => s.pc.Idling?
    case SegmentStart => s.pc.Granted?
    case SegmentReset => s.pc.Processing?
    case SegmentEnd => s.pc.Finishing?
    case Unpark => s.pc.Parked? && s.ctxDone
    case CancelFire(i) => i < |s.pending|
    case ShutdownClose => s.shutdowns > 0
    case _ => true
  }

  function Apply(s: State, step: Step): State
    requires Enabled(s, step)
  {
    match step
    case CtxCancel => s.(ctxDone := true)
    case CtxCheck => s.(pc := if s.ctxDone then Ended else Selecting)
    case DrainCheck => s.(pc := if s.drainClosed then Parked else Requesting)
    case Send(room) =>
      if !room then s.(pc := Ended)
      else s.(pc := Awaiting, sent := s.sent + [s.nextSeq], nextSeq := s.nextSeq + 1,
              sentAfterDrain := s.sentAfterDrain + if s.drainClosed then 1 else 0)
    case ReadGrant(g) => s.(pc := match g case Empty => Idling case Job => Granted case Failed => Ended)
    case IdleCtx => s.(pc := Ended)
    case IdleDrain => s.(pc := Parked)
    case IdleTimer => s.(pc := Top)
    case SegmentStart => s.(pc := Processing(s.started), started := s.started + 1, cancelFn := Some(s.started))
    case SegmentReset => s.(pc := Finishing(s.pc.seg), cancelFn := None)
    case SegmentEnd => s.(pc := Top)
    case Unpark => s.(pc := Ended)
    case CancelRead => s.(pending := s.pending + [Pending(s.cancelFn, s.started)])
    case CancelFire(i) =>
      var p := s.pending[i];
      s.(pending := s.pending[..i] + s.pending[i + 1..],
         cancelled := if p.fn.Some? then s.cancelled + {p.fn.value} else s.cancelled)
    case Drain => s.(drainClosed := true)
    case ShutdownDrain => s.(drainClosed := true, shutdowns := s.shutdowns + 1)
    case ShutdownClose => s.(shutdownClosed := true, shutdowns := s.shutdowns - 1)
  }

  /** The segment in flight. */
  function InFlight(s: State): set<Segment> {
    if s.pc.Processing? || s.pc.Finishing? then {s.pc.seg} else {}
  }

  ghost predicate Numbered(s: State) {
    s.nextSeq == FIRST_SEQ + |s.sent| && forall i :: 0 <= i < |s.sent| ==> s.sent[i] == FIRST_SEQ + i
  }

  ghost predicate Wired(s: State) {
    && (forall seg :: seg in InFlight(s) ==> seg + 1 == s.started)
    && (s.cancelFn.Some? ==> s.pc == Processing(s.cancelFn.value))
    && (s.pc.Processing? ==> s.cancelFn == Some(s.pc.seg))
    && (forall seg :: seg in s.cancelled ==> seg < s.started)
  }

  ghost predicate PendingPast(s: State) {
    forall p :: p in s.pending && p.fn.Some? ==> p.fn.value < p.before <= s.started
  }

  ghost predicate Drains(s: State) {
    && (s.shutdownClosed || s.shutdowns > 0 ==> s.drainClosed)
    && s.sentAfterDrain <= 1 && (!s.drainClosed || s.pc.Requesting? ==> s.sentAfterDrain == 0)
  }

  ghost predicate Inv(s: State) { Numbered(s) && Wired(s) && PendingPast(s) && Drains(s) }

  lemma StartInv()
    ensures Inv(START)
  {
  }

  lemma StepKeeps(s: State, step: Step)
    requires Inv(s) && Enabled(s, step)
    ensures Inv(Apply(s, step))
  {
    hide Numbered, Wired, PendingPast, Drains;
    NumberedKept(s, step);
    WiredKept(s, step);
    PendingKept(s, step);
    DrainsKept(s, step);
  }

  lemma NumberedKept(s: State, step: Step)
    requires Numbered(s) && Enabled(s, step)
    ensures Numbered(Apply(s, step))
  {
    assert !step.Send? ==> Apply(s, step).sent == s.sent && Apply(s, step).nextSeq == s.nextSeq;
  }

  lemma WiredKept(s: State, step: Step)
    requires Wired(s) && PendingPast(s) && Enabled(s, step)
    ensures Wired(Apply(s, step))
  {
    if step.CancelFire? {
      assert s.pending[step.i] in s.pending;
    }
  }

  lemma PendingKept(s: State, step: Step)
    requires Wired(s) && PendingPast(s) && Enabled(s, step)
    ensures PendingPast(Apply(s, step))
  {
    var s' := Apply(s, step);
    if step.CancelRead? {
      assert forall p :: p in s'.pending ==> p in s.pending || p == Pending(s.cancelFn, s.started);
    } else {
      assert forall p :: p in s'.pending ==> p in s.pending;
      assert s.started <= s'.started;
    }
  }

  lemma DrainsKept(s: State, step: Step)
    requires Drains(s) && Enabled(s, step)
    ensures Drains(Apply(s, step))
  {
  }

  // ----- what each command can and cannot do -----

  /** However late it fires, a cancel never touches a segment that started after its function was read; if the
      function was read while a segment was being processed, that segment is the one it cancels. */
  lemma CancelHitsOnlyItsSegment(s: State, i: nat)
    requires Inv(s) && i < |s.pending|
    ensures var p := s.pending[i];
            var hit := Apply(s, CancelFire(i)).cancelled - s.cancelled;
            (forall seg :: seg in hit ==> seg < p.before && p.fn == Some(seg))
            && (p.fn.Some? ==> p.fn.value in Apply(s, CancelFire(i)).cancelled)
  {
    assert s.pending[i] in s.pending;
  }

  lemma CancelReadsTheSegmentInFlight(s: State)
    requires Inv(s)
    ensures var s' := Apply(s, CancelRead);
            s'.pending[|s.pending|] == Pending(if s.pc.Processing? then Some(s.pc.seg) else None, s.started)
            && s'.pending[..|s.pending|] == s.pending
  {
  }

  /** Draining and shutting down leave the segment in flight alone. */
  lemma DrainSparesTheSegment(s: State, step: Step)
    requires Enabled(s, step) && (step.Drain? || step.ShutdownDrain? || step.ShutdownClose?)
    ensures var s' := Apply(s, step);
            s'.pc == s.pc && s'.cancelled == s.cancelled && s'.cancelFn == s.cancelFn && s'.pending == s.pending
            && s'.sent == s.sent
  {
  }

  // ----- runs -----

  ghost predicate IsRun(s: State, steps: seq<Step>)
    decreases |steps|
  {
    steps == [] || (Enabled(s, steps[0]) && IsRun(Apply(s, steps[0]), steps[1..]))
  }

  ghost function After(s: State, steps: seq<Step>): State
    requires IsRun(s, steps)
    decreases |steps|
  {
    if steps == [] then s else After(Apply(s, steps[0]), steps[1..])
  }

  /** Nothing sent, started or closed is ever taken back. */
  ghost predicate Grows(s: State, s': State) {
    s.sent <= s'.sent && s.started <= s'.started && (s.drainClosed ==> s'.drainClosed)
    && (s.shutdownClosed ==> s'.shutdownClosed) && s.cancelled <= s'.cancelled
  }

  lemma StepGrows(s: State, step: Step)
    requires Enabled(s, step)
    ensures Grows(s, Apply(s, step))
  {
  }

  /** In every interleaving: consecutive sequence numbers from 2, at most one segment in flight, at most one
      request after the drain channel closes, and shutdown never closes before drain. */
  lemma {:induction false} RunKeeps(s: State, steps: seq<Step>)
    requires Inv(s) && IsRun(s, steps)
    ensures Inv(After(s, steps)) && Grows(s, After(s, steps)) && |InFlight(After(s, steps))| <= 1
    decreases |steps|
  {
    hide Inv, Apply, Enabled;
    if steps != [] {
      StepKeeps(s, steps[0]);
      StepGrows(s, steps[0]);
      RunKeeps(Apply(s, steps[0]), steps[1..]);
    }
  }

  /** Once the drain channel is closed, the loop sends at most what one request it was already committed to
      adds, and starts at most the one segment that request is granted. */
  predicate Committed(pc: Pc) { pc.Requesting? }

  predicate MayStart(pc: Pc) { pc.Requesting? || pc.Awaiting? || pc.Granted? }

  lemma {:induction false} AfterDrain(s: State, steps: seq<Step>)
    requires s.drainClosed && IsRun(s, steps)
    ensures var end := After(s, steps);
            |end.sent| <= |s.sent| + (if Committed(s.pc) then 1 else 0)
            && end.started <= s.started + (if MayStart(s.pc) then 1 else 0)
    decreases |steps|
  {
    if steps != [] {
      AfterDrain(Apply(s, steps[0]), steps[1..]);
    }
  }

  // ----- what the loop does when nobody interferes -----

  /** One turn of the loop with a job, and one without. */
  function Turn(job: bool): seq<Step> {
    [CtxCheck, DrainCheck, Send(true)]
    + if job then [ReadGrant(Job), SegmentStart, SegmentReset, SegmentEnd] else [ReadGrant(Empty), IdleTimer]
  }

  lemma Asks(s: State)
    requires s.pc == Top && !s.ctxDone && !s.drainClosed
    ensures var asked := [CtxCheck, DrainCheck, Send(true)];
            IsRun(s, asked) && After(s, asked) == s.(pc := Awaiting, sent := s.sent + [s.nextSeq], nextSeq := s.nextSeq + 1)
  {
    hide IsRun, After;
    Three(s, CtxCheck, DrainCheck, Send(true));
  }

  lemma Works(s: State)
    requires s.pc == Awaiting
    ensures var work := [ReadGrant(Job), SegmentStart, SegmentReset] + [SegmentEnd];
            IsRun(s, work) && After(s, work) == s.(pc := Top, started := s.started + 1, cancelFn := None)
  {
    hide IsRun, After;
    Three(s, ReadGrant(Job), SegmentStart, SegmentReset);
    OneMore(s.(pc := Finishing(s.started), started := s.started + 1, cancelFn := None), SegmentEnd);
    RunsJoin(s, [ReadGrant(Job), SegmentStart, SegmentReset], [SegmentEnd]);
  }

  lemma Idles(s: State)
    requires s.pc == Awaiting
    ensures var idle := [ReadGrant(Empty)] + [IdleTimer]; IsRun(s, idle) && After(s, idle) == s.(pc := Top)
  {
    hide IsRun, After;
    OneMore(s, ReadGrant(Empty));
    OneMore(s.(pc := Idling), IdleTimer);
    RunsJoin(s, [ReadGrant(Empty)], [IdleTimer]);
  }

  /** A turn sends the next sequence number; with a job it runs one segment, without it none. */
  lemma TurnDoes(s: State, job: bool)
    requires s.pc == Top && !s.ctxDone && !s.drainClosed
    ensures IsRun(s, Turn(job))
    ensures After(s, Turn(job)) == s.(sent := s.sent + [s.nextSeq], nextSeq := s.nextSeq + 1,
                                      started := s.started + if job then 1 else 0, cancelFn := if job then None else s.cancelFn)
  {
    hide IsRun, After, Apply, Enabled;
    var asked, s1 := [CtxCheck, DrainCheck, Send(true)], s.(pc := Awaiting, sent := s.sent + [s.nextSeq], nextSeq := s.nextSeq + 1);
    Asks(s);
    if job {
      Works(s1);
      RunsJoin(s, asked, [ReadGrant(Job), SegmentStart, SegmentReset] + [SegmentEnd]);
      assert Turn(job) == asked + ([ReadGrant(Job), SegmentStart, SegmentReset] + [SegmentEnd]);
    } else {
      Idles(s1);
      RunsJoin(s, asked, [ReadGrant(Empty)] + [IdleTimer]);
      assert Turn(job) == asked + ([ReadGrant(Empty)] + [IdleTimer]);
    }
  }

  lemma OneMore(s: State, a: Step)
    requires Enabled(s, a)
    ensures IsRun(s, [a]) && After(s, [a]) == Apply(s, a)
  {
    assert [a][1..] == [];
  }

  lemma Three(s: State, a: Step, b: Step, c: Step)
    requires Enabled(s, a) && Enabled(Apply(s, a), b) && Enabled(Apply(Apply(s, a), b), c)
    ensures IsRun(s, [a, b, c]) && After(s, [a, b, c]) == Apply(Apply(Apply(s, a), b), c)
  {
    hide Apply, Enabled;
    OneMore(Apply(Apply(s, a), b), c);
    assert [a, b, c][1..] == [b, c] && [b, c][1..] == [c];
  }

  lemma {:induction false} RunsJoin(s: State, run: seq<Step>, more: seq<Step>)
    requires IsRun(s, run) && IsRun(After(s, run), more)
    ensures IsRun(s, run + more) && After(s, run + more) == After(After(s, run), more)
    decreases |run|
  {
    hide Apply, Enabled;
    if run == [] {
      assert run + more == more;
    } else {
      RunsJoin(Apply(s, run[0]), run[1..], more);
      assert (run + more)[1..] == run[1..] + more;
    }
  }

  function Turns(jobs: seq<bool>): seq<Step> {
    if jobs == [] then [] else Turn(jobs[0]) + Turns(jobs[1..])
  }

  function JobsIn(jobs: seq<bool>): nat {
    if jobs == [] then 0 else (if jobs[0] then 1 else 0) + JobsIn(jobs[1..])
  }

  /** Left alone the loop asks for ever, with the numbers 2, 3, 4 and so on, and runs one segment per job granted. */
  lemma {:induction false} TurnsDo(s: State, jobs: seq<bool>)
    requires s.pc == Top && !s.ctxDone && !s.drainClosed && Numbered(s)
    ensures IsRun(s, Turns(jobs))
    ensures var end := After(s, Turns(jobs));
            && end.pc == Top && !end.ctxDone && !end.drainClosed
            && s.sent <= end.sent && |end.sent| == |s.sent| + |jobs|
            && (forall i :: 0 <= i < |end.sent| ==> end.sent[i] == i + 2)
            && end.started == s.started + JobsIn(jobs)
    decreases |jobs|
  {
    hide Apply, Enabled;
    if jobs != [] {
      hide IsRun, After;
      TurnDoes(s, jobs[0]);
      var s' := After(s, Turn(jobs[0]));
      TurnsDo(s', jobs[1..]);
      RunsJoin(s, Turn(jobs[0]), Turns(jobs[1..]));
    }
  }

  /** Where the loop goes from each place: it parks exactly when it looks and finds the drain closed, ends exactly when
      it looks and finds the context done or a send or a read fails, and starts a segment exactly for a job. */
  lemma NextPlace(s: State, step: Step)
    requires Enabled(s, step)
    ensures var to := Apply(s, step).pc;
            && (step.DrainCheck? ==> (to.Parked? <==> s.drainClosed) && (to.Requesting? <==> !s.drainClosed))
            && (step.CtxCheck? ==> (to.Ended? <==> s.ctxDone) && (to.Selecting? <==> !s.ctxDone))
            && (step.Send? ==> (to.Awaiting? <==> step.room) && (to.Ended? <==> !step.room))
            && (step.ReadGrant? ==>
                  (to.Granted? <==> step.grant.Job?) && (to.Idling? <==> step.grant.Empty?) && (to.Ended? <==> step.grant.Failed?))
            && (to.Processing? && !s.pc.Processing? <==> step.SegmentStart?)
            && (to.Parked? && !s.pc.Parked? ==> s.drainClosed)
            && (to.Ended? && (s.pc.Idling? || s.pc.Parked?) ==> s.ctxDone)
            && (s.pc.Ended? ==> to.Ended?)
  {
  }

  /** Only a cancelled context is done, only a drain or a shutdown closes the drain channel, only a shutdown the other. */
  lemma Signals(s: State, step: Step)
    requires Enabled(s, step)
    ensures var s' := Apply(s, step);
            && (s'.ctxDone <==> s.ctxDone || step.CtxCancel?)
            && (s'.drainClosed <==> s.drainClosed || step.Drain? || step.ShutdownDrain?)
            && (s'.shutdownClosed <==> s.shutdownClosed || step.ShutdownClose?)
            && s'.shutdowns == s.shutdowns + (if step.ShutdownDrain? then 1 else if step.ShutdownClose? then -1 else 0)
  {
  }

  // ----- the command handler itself -----

  /** The handler holds the cancel function and the two channels; `rest` is what the loop and the cancel commands in
      progress hold. A method is one step of the machine, or two with nothing in between. */
  class CommandHandler {
    var cancel: Option<Segment>
    var drainClosed: bool
    var shutdownClosed: bool
    ghost var rest: State
    ghost var closes: nat // how many channel closes have been executed

    ghost function World(): State
      reads this
    {
      rest.(cancelFn := cancel, drainClosed := drainClosed, shutdownClosed := shutdownClosed)
    }

    ghost predicate Valid()
      reads this
    {
      Inv(World()) && closes == (if drainClosed then 1 else 0) + (if shutdownClosed then 1 else 0)
    }

    constructor ()
      ensures Valid() && World() == START
      ensures World() == State(Top, 2, [], 0, false, None, [], {}, false, false, 0, 0)
    {
      cancel, drainClosed, shutdownClosed, rest, closes := None, false, false, START, 0;
      new;
      StartInv();
    }

    /** Called by processSegment alone: with the segment's own function as it starts, with none as it ends. */
    method SetCancel(fn: Option<Segment>)
      requires Valid()
      requires fn.Some? ==> World().pc.Granted? && fn.value == World().started
      requires fn.None? ==> World().pc.Processing?
      modifies this`cancel, this`rest
      ensures Valid() && World() == Apply(old(World()), if fn.Some? then SegmentStart else SegmentReset)
    {
      ghost var step := if fn.Some? then SegmentStart else SegmentReset;
      StepKeeps(World(), step);
      rest := Apply(World(), step);
      cancel := fn;
    }

    /** Reads the function under the lock and calls it: the segment being processed is cancelled, if there is one. */
    method Cancel() returns (fn: Option<Segment>)
      requires Valid()
      modifies this`rest
      ensures var was := old(World());
              && fn == (if was.pc.Processing? then Some(was.pc.seg) else None)
              && World() == Apply(Apply(was, CancelRead), CancelFire(|was.pending|))
              && World() == was.(cancelled := was.cancelled + if fn.Some? then {fn.value} else {})
      ensures Valid()
    {
      ghost var was := World();
      StepKeeps(was, CancelRead);
      fn := cancel;
      rest := Apply(was, CancelRead);
      assert rest.pending[..|was.pending|] + rest.pending[|was.pending| + 1..] == was.pending;
      StepKeeps(rest, CancelFire(|was.pending|));
      rest := Apply(rest, CancelFire(|was.pending|));
    }

    method Drain()
      requires Valid()
      modifies this`drainClosed, this`closes
      ensures Valid() && closes == old(closes) + if old(drainClosed) then 0 else 1
      ensures World() == Apply(old(World()), Step.Drain)
    {
      StepKeeps(World(), Step.Drain);
      if !drainClosed {
        drainClosed, closes := true, closes + 1;
      }
    }

    /** Idempotent: each channel is closed once, drain first. */
    method Shutdown()
      requires Valid()
      modifies this`drainClosed, this`shutdownClosed, this`closes
      ensures Valid() && closes == 2
      ensures World() == Apply(Apply(old(World()), ShutdownDrain), ShutdownClose)
    {
      StepKeeps(World(), ShutdownDrain);
      StepKeeps(Apply(World(), ShutdownDrain), ShutdownClose);
      Drain();
      if !shutdownClosed {
        shutdownClosed, closes := true, closes + 1;
      }
    }
  }
}
