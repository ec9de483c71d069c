/** The async effect producer (libs/tracing/producer.go): a bounded channel, a batching loop, a draining stop.

    One step is one select or one post of the loop goroutine, or one `Record` of some other goroutine, in any
    order: a record may come in while the last batch is being posted, and is then accepted and lost. */
module EffectProducer {

  /** `Emptied`: the draining loop has seen an empty channel and is about to flush; `Leaving`: it has flushed. */
  datatype Phase = Running | Draining | Emptied | Leaving | Exited

  /** One call of `Record` and whether the channel took the effect. */
  datatype Call<+E> = Call(effect: E, taken: bool)

  /** `posted` logs the batches handed to `post`, `calls` every `Record` so far. */
  datatype State<E> = State(ch: seq<E>, buf: seq<E>, posted: seq<seq<E>>, dropped: nat,
                            calls: seq<Call<E>>, stopClosed: bool, phase: Phase)

  datatype Config = Config(bufferSize: nat, maxBatch: nat)

  /** What NewProducer makes of the configured sizes. */
  function WithDefaults(bufferSize: int, maxBatch: int): (c: Config)
    ensures c.bufferSize > 0 && c.maxBatch > 0
    ensures c.bufferSize == (if 0 < bufferSize then bufferSize else 4096)
    ensures c.maxBatch == (if 0 < maxBatch then maxBatch else 256)
  {
    Config(if bufferSize <= 0 then 4096 else bufferSize, if maxBatch <= 0 then 256 else maxBatch)
  }

  datatype Step<+E> = Record(effect: E) | Receive | Tick | CloseStop | SeeStop | DrainReceive | LookEmpty | FinalPost | Exit

  predicate Enabled<E>(s: State<E>, step: Step<E>) {
    match step
    case Record(_) => true
    case Receive => s.phase == Running && s.ch != []
    case Tick => s.phase == Running
    case CloseStop => !s.stopClosed
    case SeeStop => s.phase == Running && s.stopClosed
    case DrainReceive => s.phase == Draining && s.ch != []
    case LookEmpty => s.phase == Draining && s.ch == []
    case FinalPost => s.phase == Emptied
    case Exit => s.phase == Leaving
  }

  function Flushed<E>(s: State<E>): State<E> {
    if s.buf == [] then s else s.(posted := s.posted + [s.buf], buf := [])
  }

  function Received<E>(s: State<E>, c: Config): State<E>
    requires s.ch != []
  {
    var t := s.(buf := s.buf + [s.ch[0]], ch := s.ch[1..]);
    if |t.buf| >= c.maxBatch then Flushed(t) else t
  }

  function Apply<E>(s: State<E>, step: Step<E>, c: Config): State<E>
    requires Enabled(s, step)
  {
    match step
    case Record(e) =>
      if |s.ch| < c.bufferSize then s.(ch := s.ch + [e], calls := s.calls + [Call(e, true)])
      else s.(dropped := s.dropped + 1, calls := s.calls + [Call(e, false)])
    case Receive => Received(s, c)
    case Tick => Flushed(s)
    case CloseStop => s.(stopClosed := true)
    case SeeStop => s.(phase := Draining)
    case DrainReceive => Received(s, c)
    case LookEmpty => s.(phase := Emptied)
    case FinalPost => Flushed(s).(phase := Leaving)
    case Exit => s.(phase := Exited)
  }

  // ----- conservation -----

  function Flatten<E>(batches: seq<seq<E>>): seq<E> {
    if batches == [] then [] else batches[0] + Flatten(batches[1..])
  }

  /** The accepted effects, in the order they were recorded. */
  function Accepted<E>(calls: seq<Call<E>>): seq<E> {
    if calls == [] then [] else (if calls[0].taken then [calls[0].effect] else []) + Accepted(calls[1..])
  }

  ghost predicate Conserved<E>(s: State<E>, c: Config) {
    && Flatten(s.posted) + s.buf + s.ch == Accepted(s.calls)
    && |s.calls| == |Accepted(s.calls)| + s.dropped
    && |s.buf| < c.maxBatch && |s.ch| <= c.bufferSize
    && (forall i :: 0 <= i < |s.posted| ==> 1 <= |s.posted[i]| <= c.maxBatch)
    && (s.phase == Leaving || s.phase == Exited ==> s.buf == [])
    && (s.phase != Running ==> s.stopClosed)
  }

  lemma {:induction false} FlattenSnoc<E>(batches: seq<seq<E>>, batch: seq<E>)
    ensures Flatten(batches + [batch]) == Flatten(batches) + batch
    decreases |batches|
  {
    if batches == [] {
      assert batches + [batch] == [batch];
    } else {
      FlattenSnoc(batches[1..], batch);
      assert (batches + [batch])[1..] == batches[1..] + [batch];
    }
  }

  lemma {:induction false} AcceptedSnoc<E>(calls: seq<Call<E>>, call: Call<E>)
    ensures Accepted(calls + [call]) == Accepted(calls) + if call.taken then [call.effect] else []
    decreases |calls|
  {
    if calls == [] {
      assert calls + [call] == [call];
    } else {
      AcceptedSnoc(calls[1..], call);
      assert (calls + [call])[1..] == calls[1..] + [call];
    }
  }

  /** Every step of every goroutine keeps the books: posted batches, buffer and channel, in this order, are
      exactly the accepted effects, and every recorded effect was accepted or counted as dropped. */
  lemma StepConserves<E>(s: State<E>, step: Step<E>, c: Config)
    requires c.maxBatch > 0 && c.bufferSize > 0 && Conserved(s, c) && Enabled(s, step)
    ensures Conserved(Apply(s, step, c), c)
  {
    FlattenSnoc(s.posted, s.buf);
    NothingBetween(Flatten(s.posted + [s.buf]), s.ch);
    if step.Record? {
      AcceptedSnoc(s.calls, Call(step.effect, |s.ch| < c.bufferSize));
      Associates(Flatten(s.posted) + s.buf, s.ch, [step.effect]);
      NothingBetween(Accepted(s.calls), []);
    }
    hide Flatten, Accepted;
    if step.Receive? || step.DrainReceive? {
      ReceiveConserves(s, c);
    }
  }

  lemma MoveOne<T>(a: seq<T>, b: seq<T>, c: seq<T>)
    requires c != []
    ensures a + b + c == a + (b + [c[0]]) + c[1..]
  {
    assert c == [c[0]] + c[1..];
  }

  lemma NothingBetween<T>(a: seq<T>, b: seq<T>)
    ensures a + [] + b == a + b && a + [] == a
  {
  }

  lemma Associates<T>(a: seq<T>, b: seq<T>, c: seq<T>)
    ensures a + b + c == a + (b + c)
  {
  }

  lemma ReceiveConserves<E>(s: State<E>, c: Config)
    requires c.maxBatch > 0 && Conserved(s, c) && s.ch != [] && (s.phase == Running || s.phase == Draining)
    ensures Conserved(Received(s, c), c)
  {
    var all, more, rest := Flatten(s.posted), s.buf + [s.ch[0]], s.ch[1..];
    FlattenSnoc(s.posted, more);
    MoveOne(all, s.buf, s.ch);
    NothingBetween(all + more, rest);
    hide Flatten, Accepted;
    var t := Received(s, c);
    if |more| >= c.maxBatch {
      assert t.posted == s.posted + [more] && t.buf == [] && t.ch == rest;
    } else {
      assert t.posted == s.posted && t.buf == more && t.ch == rest;
    }
  }

  // ----- runs -----

  ghost predicate IsRun<E>(s: State<E>, steps: seq<Step<E>>, c: Config)
    decreases |steps|
  {
    steps == [] || (Enabled(s, steps[0]) && IsRun(Apply(s, steps[0], c), steps[1..], c))
  }

  ghost function After<E>(s: State<E>, steps: seq<Step<E>>, c: Config): State<E>
    requires IsRun(s, steps, c)
    decreases |steps|
  {
    if steps == [] then s else After(Apply(s, steps[0], c), steps[1..], c)
  }

  lemma {:induction false} RunConserves<E>(s: State<E>, steps: seq<Step<E>>, c: Config)
    requires c.maxBatch > 0 && c.bufferSize > 0 && Conserved(s, c) && IsRun(s, steps, c)
    ensures Conserved(After(s, steps, c), c)
    decreases |steps|
  {
    if steps != [] {
      StepConserves(s, steps[0], c);
      RunConserves(Apply(s, steps[0], c), steps[1..], c);
    }
  }

  /** When batches are posted: with the buffer growing to `maxBatch`, on a tick and before the exit, whole; never
      otherwise. */
  lemma StepPosts<E>(s: State<E>, step: Step<E>, c: Config)
    requires Enabled(s, step)
    ensures var s' := Apply(s, step, c);
            if step.Receive? || step.DrainReceive? then
              && s'.ch == s.ch[1..]
              && (if |s.buf| + 1 < c.maxBatch then s'.buf == s.buf + [s.ch[0]] && s'.posted == s.posted
                  else s'.buf == [] && s'.posted == s.posted + [s.buf + [s.ch[0]]])
            else if step.Tick? || step.FinalPost? then
              s'.buf == [] && s'.ch == s.ch && s'.posted == s.posted + if s.buf == [] then [] else [s.buf]
            else if step.Record? && |s.ch| < c.bufferSize then
              s'.ch == s.ch + [step.effect] && s'.buf == s.buf && s'.posted == s.posted
            else s'.ch == s.ch && s'.buf == s.buf && s'.posted == s.posted
  {
    assert s.posted + [] == s.posted;
  }

  /** The loop leaves only by the stop, through an empty channel and a last post. */
  lemma PhaseOrder<E>(s: State<E>, step: Step<E>, c: Config)
    requires Enabled(s, step)
    ensures var from, to := s.phase, Apply(s, step, c).phase;
            from == to || (from == Running && to == Draining && s.stopClosed) || (from == Draining && to == Emptied && s.ch == [])
            || (from == Emptied && to == Leaving) || (from == Leaving && to == Exited)
  {
  }

  /** An effect is dropped only while the channel is full, and a `Record` is the only step that drops. */
  lemma DropsOnlyWhenFull<E>(s: State<E>, step: Step<E>, c: Config)
    requires Enabled(s, step)
    ensures Apply(s, step, c).dropped != s.dropped <==> step.Record? && |s.ch| >= c.bufferSize
    ensures Apply(s, step, c).dropped <= s.dropped + 1
  {
  }

  // ----- the end -----

  predicate Over(phase: Phase) { phase == Emptied || phase == Leaving || phase == Exited }

  /** Nothing is received any more, and what is accepted now stays in the channel. */
  ghost predicate Ending<E>(s: State<E>, seen: seq<E>) {
    && Over(s.phase) && Flatten(s.posted) + s.buf == seen && seen + s.ch == Accepted(s.calls)
    && (s.phase != Emptied ==> s.buf == [])
  }

  lemma EndingStep<E>(s: State<E>, step: Step<E>, c: Config, seen: seq<E>)
    requires Ending(s, seen) && Enabled(s, step)
    ensures Ending(Apply(s, step, c), seen)
  {
    FlattenSnoc(s.posted, s.buf);
    NothingBetween(Flatten(s.posted + [s.buf]), []);
    NothingBetween(Flatten(s.posted), []);
    if step.Record? {
      AcceptedSnoc(s.calls, Call(step.effect, |s.ch| < c.bufferSize));
      Associates(seen, s.ch, [step.effect]);
      NothingBetween(Accepted(s.calls), []);
    }
    hide Flatten, Accepted;
  }

  lemma {:induction false} EndingRun<E>(s: State<E>, steps: seq<Step<E>>, c: Config, seen: seq<E>)
    requires Ending(s, seen) && IsRun(s, steps, c)
    ensures Ending(After(s, steps, c), seen)
    decreases |steps|
  {
    hide Ending, Enabled, Apply;
    if steps != [] {
      EndingStep(s, steps[0], c, seen);
      EndingRun(Apply(s, steps[0], c), steps[1..], c, seen);
    }
  }

  /** When the loop exits, exactly what was accepted before its last, empty look at the channel has been posted;
      what was accepted after it is in the channel and stays there.  Nothing is lost exactly when nothing was
      accepted after that look. */
  lemma ExitPosts<E>(s: State<E>, steps: seq<Step<E>>, c: Config)
    requires Conserved(s, c) && Enabled(s, LookEmpty) && IsRun(Apply(s, LookEmpty, c), steps, c)
    requires After(Apply(s, LookEmpty, c), steps, c).phase == Exited
    ensures var end := After(Apply(s, LookEmpty, c), steps, c);
            && end.buf == [] && Flatten(end.posted) == Accepted(s.calls)
            && Accepted(end.calls) == Accepted(s.calls) + end.ch
            && (Flatten(end.posted) == Accepted(end.calls) <==> |Accepted(end.calls)| == |Accepted(s.calls)|)
  {
    var look, seen := Apply(s, LookEmpty, c), Accepted(s.calls);
    assert s.ch == [] && Flatten(s.posted) + s.buf + [] == Flatten(s.posted) + s.buf;
    assert seen + [] == seen;
    EndingRun(look, steps, c, seen);
    var end := After(look, steps, c);
    assert Flatten(end.posted) + [] == Flatten(end.posted);
    if end.ch == [] {
      assert seen + [] == seen;
    }
  }

  /** After the exit nothing is posted any more: later accepted effects stay in the channel. */
  lemma {:induction false} ExitIsFinal<E>(s: State<E>, steps: seq<Step<E>>, c: Config)
    requires s.phase == Exited && IsRun(s, steps, c)
    ensures After(s, steps, c).phase == Exited && After(s, steps, c).posted == s.posted && After(s, steps, c).buf == s.buf
    decreases |steps|
  {
    if steps != [] {
      ExitIsFinal(Apply(s, steps[0], c), steps[1..], c);
    }
  }

  /** The run of the next lemma, state by state. */
  function Losing<E>(first: E, late: E, k: nat): State<E> {
    var one, both := [Call(first, true)], [Call(first, true), Call(late, true)];
    match k
    case 0 => State([], [], [], 0, [], false, Running)
    case 1 => State([first], [], [], 0, one, false, Running)
    case 2 => State([first], [], [], 0, one, true, Running)
    case 3 => State([first], [], [], 0, one, true, Draining)
    case 4 => State([], [first], [], 0, one, true, Draining)
    case 5 => State([], [first], [], 0, one, true, Emptied)
    case 6 => State([late], [first], [], 0, both, true, Emptied)
    case 7 => State([late], [], [[first]], 0, both, true, Leaving)
    case _ => State([late], [], [[first]], 0, both, true, Exited)
  }

  function Steps<E>(first: E, late: E): seq<Step<E>> {
    [Step.Record(first), CloseStop, SeeStop, DrainReceive, LookEmpty, Step.Record(late), FinalPost, Exit]
  }

  lemma LosingStep<E>(first: E, late: E, c: Config, k: nat)
    requires c.bufferSize > 0 && c.maxBatch > 1 && k < 8
    ensures Enabled(Losing(first, late, k), Steps(first, late)[k])
    ensures Apply(Losing(first, late, k), Steps(first, late)[k], c) == Losing(first, late, k + 1)
  {
    var s := Losing(first, late, k);
    if k == 5 {
      assert s.calls + [Call(late, true)] == [Call(first, true), Call(late, true)];
    } else if k == 3 {
      assert s.ch[1..] == [] && s.buf + [s.ch[0]] == [first];
    }
  }

  lemma {:induction false} LosingRun<E>(first: E, late: E, c: Config, k: nat)
    requires c.bufferSize > 0 && c.maxBatch > 1 && k <= 8
    ensures IsRun(Losing(first, late, k), Steps(first, late)[k..], c)
    ensures After(Losing(first, late, k), Steps(first, late)[k..], c) == Losing(first, late, 8)
    decreases 8 - k
  {
    hide Losing, Enabled, Apply;
    if k < 8 {
      LosingStep(first, late, c, k);
      LosingRun(first, late, c, k + 1);
      var steps := Steps(first, late);
      assert steps[k..][1..] == steps[k + 1..] && steps[k..][0] == steps[k];
    }
  }

  /** One effect is posted; another, recorded during that post, is accepted and lost. */
  lemma RecordDuringLastPostIsLost<E>(first: E, late: E, c: Config)
    requires c.bufferSize > 0 && c.maxBatch > 1
    ensures var start := Losing(first, late, 0);
            && Conserved(start, c) && IsRun(start, Steps(first, late), c)
            && var end := After(start, Steps(first, late), c);
               end.phase == Exited && end.posted == [[first]] && Accepted(end.calls) == [first, late] && end.dropped == 0
  {
    LosingRun(first, late, c, 0);
    assert Steps(first, late)[0..] == Steps(first, late);
    var both := [Call(first, true), Call(late, true)];
    assert both[1..] == [Call(late, true)] && both[1..][1..] == [];
    assert Accepted(both[1..]) == [late];
  }

  // ----- the producer itself -----

  class Producer<E> {
    const cfg: Config
    var ch: seq<E>
    var buf: seq<E>
    var dropped: nat
    ghost var posted: seq<seq<E>>
    ghost var calls: seq<Call<E>>
    ghost var stopClosed: bool
    ghost var phase: Phase

    constructor (bufferSize: int, maxBatch: int)
      ensures cfg == WithDefaults(bufferSize, maxBatch)
      ensures Books() == State([], [], [], 0, [], false, Running) && Conserved(Books(), cfg)
    {
      cfg := WithDefaults(bufferSize, maxBatch);
      ch, buf, dropped := [], [], 0;
      posted, calls, stopClosed, phase := [], [], false, Running;
    }

    ghost function Books(): State<E>
      reads this
    {
      State(ch, buf, posted, dropped, calls, stopClosed, phase)
    }

    method Record(e: E)
      modifies this`ch, this`dropped, this`calls
      ensures Books() == Apply(old(Books()), Step.Record(e), cfg)
      ensures if |old(ch)| < cfg.bufferSize then ch == old(ch) + [e] && dropped == old(dropped)
              else ch == old(ch) && dropped == old(dropped) + 1
    {
      if |ch| < cfg.bufferSize {
        ch := ch + [e];
        calls := calls + [Call(e, true)];
      } else {
        dropped := dropped + 1;
        calls := calls + [Call(e, false)];
      }
    }

    method Flush()
      modifies this`buf, this`posted
      ensures Books() == Flushed(old(Books()))
      ensures buf == [] && posted == old(posted) + if old(buf) == [] then [] else [old(buf)]
    {
      if |buf| == 0 {
        return;
      }
      posted := posted + [buf];
      buf := [];
    }

    /** The channel case of both selects. */
    method ReceiveOne()
      requires ch != []
      modifies this`ch, this`buf, this`posted
      ensures Books() == Received(old(Books()), cfg)
      ensures if |old(buf)| + 1 < cfg.maxBatch then buf == old(buf) + [old(ch)[0]] && posted == old(posted)
              else buf == [] && posted == old(posted) + [old(buf) + [old(ch)[0]]]
    {
      buf := buf + [ch[0]];
      ch := ch[1..];
      if |buf| >= cfg.maxBatch {
        Flush();
      }
    }

    /** What other goroutines record before the loop goes on. */
    method Others(effects: seq<E>)
      requires cfg.maxBatch > 0 && cfg.bufferSize > 0 && Conserved(Books(), cfg)
      modifies this`ch, this`dropped, this`calls
      ensures Conserved(Books(), cfg) && phase == old(phase) && buf == old(buf) && posted == old(posted)
      ensures old(ch) <= ch && Accepted(calls) == Accepted(old(calls)) + ch[|old(ch)|..]
      ensures |ch| == if |old(ch)| + |effects| <= cfg.bufferSize then |old(ch)| + |effects| else cfg.bufferSize
    {
      hide Flatten, Accepted;
      ghost var before := Accepted(calls);
      NothingBetween(before, []);
      assert ch[|ch|..] == [];
      for i := 0 to |effects|
        invariant Conserved(Books(), cfg) && old(ch) <= ch && Accepted(calls) == before + ch[|old(ch)|..]
        invariant |ch| == if |old(ch)| + i <= cfg.bufferSize then |old(ch)| + i else cfg.bufferSize
      {
        StepConserves(Books(), Step.Record(effects[i]), cfg);
        AcceptedSnoc(calls, Call(effects[i], |ch| < cfg.bufferSize));
        NothingBetween(Accepted(calls), []);
        Associates(before, ch[|old(ch)|..], [effects[i]]);
        ghost var was := ch;
        Record(effects[i]);
        assert |was| < cfg.bufferSize ==> ch[|old(ch)|..] == was[|old(ch)|..] + [effects[i]];
      }
    }

    /** The last flush and the return, `late` recorded in between. */
    method LastPost(late: seq<E>)
      requires cfg.maxBatch > 0 && cfg.bufferSize > 0 && Conserved(Books(), cfg) && phase == Draining && ch == []
      modifies this`ch, this`buf, this`posted, this`phase, this`dropped, this`calls
      ensures Conserved(Books(), cfg) && phase == Exited && buf == []
      ensures Flatten(posted) == Accepted(old(calls)) && Accepted(calls) == Accepted(old(calls)) + ch
      ensures |ch| == if |late| <= cfg.bufferSize then |late| else cfg.bufferSize
    {
      hide Flatten, Accepted;
      StepConserves(Books(), LookEmpty, cfg);
      phase := Emptied;
      NothingBetween(Flatten(posted) + buf, []);
      assert Flatten(posted) + buf == Accepted(calls);
      Others(late);
      assert ch[0..] == ch;
      FlattenSnoc(posted, buf);
      NothingBetween(Flatten(posted), []);
      StepConserves(Books(), FinalPost, cfg);
      Flush();
      phase := Leaving;
      StepConserves(Books(), Exit, cfg);
      phase := Exited;
    }

    /** The stop case: `others[i]` is what other goroutines record before the i-th look at the channel, `late` what
        they record while the last batch is posted.  Once they pause, the channel is drained; what was accepted
        before the last look is posted, and of the late effects those that fit into the channel stay there. */
    method DrainAndExit(others: seq<seq<E>>, late: seq<E>) returns (ghost seen: seq<E>)
      requires cfg.maxBatch > 0 && cfg.bufferSize > 0 && Conserved(Books(), cfg) && phase == Running && stopClosed
      modifies this`ch, this`buf, this`posted, this`phase, this`dropped, this`calls
      ensures Conserved(Books(), cfg) && phase == Exited && buf == []
      ensures Flatten(posted) == seen && Accepted(old(calls)) <= seen && Accepted(calls) == seen + ch
      ensures |ch| == if |late| <= cfg.bufferSize then |late| else cfg.bufferSize
      ensures Flatten(posted) == Accepted(calls) <==> late == []
    {
      hide Flatten, Accepted;
      phase := Draining;
      var turn := 0;
      while turn < |others| || |ch| > 0
        invariant turn <= |others| && Conserved(Books(), cfg) && phase == Draining && Accepted(old(calls)) <= Accepted(calls)
        decreases |others| - turn, |ch|
      {
        if turn < |others| {
          Others(others[turn]);
          turn := turn + 1;
        }
        if |ch| > 0 {
          ReceiveConserves(Books(), cfg);
          ReceiveOne();
        }
      }
      seen := Accepted(calls);
      LastPost(late);
      NothingBetween(seen, []);
    }
  }
}
