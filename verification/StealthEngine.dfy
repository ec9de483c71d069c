/** The engine's synchronous methods in their own form: fields reassigned in loops.  Each is proved against the
    actions of BrowserPool, so what LeaseLedger, RiderShield and ScaleDown prove of those holds of these. */
module StealthEngine {
  import opened Optional
  import opened BrowserPool
  import opened TtlSweep
  import LeaseLedger
  import ScaleDown

  class ProfileManager {
    var profiles: seq<Profile>
    ghost var secondReleases: nat

    constructor (size: nat)
      requires size >= 1
      ensures profiles == seq(size, _ => Profile(false, 0, Healthy, false, 0)) && secondReleases == 0
    {
      profiles := seq(size, _ => Profile(false, 0, Healthy, false, 0));
      secondReleases := 0;
    }

    predicate Free(p: Pid)
      reads this
    {
      p < |profiles| && !profiles[p].leased && profiles[p].status == Healthy
    }

    /** Launched browsers first, then the fewest uses. */
    static predicate Before(a: Profile, b: Profile) {
      (a.launched && !b.launched) || (a.launched == b.launched && a.uses < b.uses)
    }

    /** The preferred profile when it is free, else the first of the best free ones, else none. */
    method Lease(preferred: Option<Pid>) returns (chosen: Option<Pid>)
      modifies this`profiles
      ensures chosen.None? <==> forall p :: 0 <= p < |old(profiles)| ==> old(profiles)[p].leased || !old(profiles)[p].status.Healthy?
      ensures chosen.Some? ==> chosen.value < |old(profiles)|
                               && !old(profiles)[chosen.value].leased && old(profiles)[chosen.value].status.Healthy?
      ensures chosen.Some? && chosen != preferred ==>
                forall p :: 0 <= p < |old(profiles)| && !old(profiles)[p].leased && old(profiles)[p].status.Healthy? ==>
                  var a, b := old(profiles)[chosen.value], old(profiles)[p];
                  (b.launched ==> a.launched)
                  && (a.launched == b.launched ==> a.uses <= b.uses && (a.uses == b.uses ==> chosen.value <= p))
      ensures chosen.None? <==> forall p: Pid :: !old(Free(p))
      ensures chosen.None? ==> profiles == old(profiles)
      ensures chosen.Some? ==> old(Free(chosen.value))
                               && profiles == old(profiles)[chosen.value := old(profiles)[chosen.value].(leased := true)]
      ensures preferred.Some? && old(Free(preferred.value)) ==> chosen == preferred
      ensures chosen.Some? && chosen != preferred ==>
                forall p: Pid :: old(Free(p)) ==>
                  !Before(old(profiles)[p], old(profiles)[chosen.value])
                  && (p < chosen.value ==> Before(old(profiles)[chosen.value], old(profiles)[p]))
    {
      assert forall p: Pid :: p < |profiles| ==> (Free(p) <==> !profiles[p].leased && profiles[p].status.Healthy?);
      chosen := None;
      if preferred.Some? && Free(preferred.value) {
        chosen := preferred;
      } else {
        for i := 0 to |profiles|
          invariant chosen.Some? ==> chosen.value < i && Free(chosen.value)
          invariant chosen.None? ==> forall p: Pid :: p < i ==> !Free(p)
          invariant chosen.Some? ==> forall p: Pid :: p < i && Free(p) ==>
                      !Before(profiles[p], profiles[chosen.value])
                      && (p < chosen.value ==> Before(profiles[chosen.value], profiles[p]))
        {
          if Free(i) && (chosen.None? || Before(profiles[i], profiles[chosen.value])) {
            chosen := Some(i);
          }
        }
      }
      if chosen.Some? {
        profiles := profiles[chosen.value := profiles[chosen.value].(leased := true)];
      }
    }

    method Release(p: Pid, ok: bool)
      requires p < |profiles|
      modifies this
      ensures profiles == old(profiles)[p := old(profiles)[p].(leased := false, uses := old(profiles)[p].uses + if ok then 1 else 0)]
      ensures secondReleases == old(secondReleases) + if old(profiles)[p].leased then 0 else 1
    {
      if !profiles[p].leased {
        secondReleases := secondReleases + 1;
      }
      profiles := profiles[p := profiles[p].(leased := false)];
      if ok {
        profiles := profiles[p := profiles[p].(uses := profiles[p].uses + 1)];
      }
    }

    /** A crashed slot is never leased out until the reaper marks it healthy again; the lease itself stays. */
    method MarkCrashed(p: Pid)
      requires p < |profiles|
      modifies this`profiles
      ensures |profiles| == |old(profiles)| && profiles == old(profiles)[p := profiles[p]]
      ensures profiles[p].status == Crashed && !Free(p) && profiles[p].leased == old(profiles[p].leased)
      ensures profiles[p].consecutiveFail == old(profiles[p].consecutiveFail) + 1
    {
      profiles := profiles[p := profiles[p].(status := Crashed, consecutiveFail := profiles[p].consecutiveFail + 1)];
    }

    method MarkHealthy(p: Pid)
      requires p < |profiles|
      modifies this`profiles
      ensures |profiles| == |old(profiles)| && profiles == old(profiles)[p := profiles[p]]
      ensures Free(p) == !old(profiles[p].leased) && profiles[p].leased == old(profiles[p].leased)
      ensures profiles[p].consecutiveFail == 0
    {
      profiles := profiles[p := profiles[p].(status := Healthy, consecutiveFail := 0)];
    }
  }

  // ----- the engine -----

  /** A JSON value where an address belongs: a string as its code points, or something else. */
  datatype Value = Text(codes: seq<int>) | Falsy | Truthy

  /** urllib.parse.quote takes strings only, and only those that UTF-8 can encode: no lone surrogate. */
  predicate Quotable(v: Value) { v.Text? && forall i | 0 <= i < |v.codes| :: !(0xD800 <= v.codes[i] < 0xE000) }

  predicate Present(v: Value) { v.Truthy? || (v.Text? && v.codes != []) }

  /** What the recipe hands over: the master address and the subtitles' addresses. */
  datatype Partial = Partial(master: Value, subtitles: seq<Value>)

  predicate Answerable(partial: Partial) {
    && Quotable(partial.master)
    && forall i | 0 <= i < |partial.subtitles| :: Present(partial.subtitles[i]) ==> Quotable(partial.subtitles[i])
  }

  /** No lone surrogate anywhere, and no address that is not a string; an empty one is skipped. */
  lemma AnswerableReads(partial: Partial)
    ensures Answerable(partial) <==>
              && partial.master.Text? && (forall c :: c in partial.master.codes ==> c < 0xD800 || 0xDFFF < c)
              && forall sub :: sub in partial.subtitles ==>
                   sub.Falsy? || (sub.Text? && forall c :: c in sub.codes ==> c < 0xD800 || 0xDFFF < c)
  {
    forall v: Value ensures Quotable(v) <==> v.Text? && forall c :: c in v.codes ==> c < 0xD800 || 0xDFFF < c {
      QuotableReads(v);
    }
    hide Quotable;
    forall sub | sub in partial.subtitles
      ensures (Present(sub) ==> Quotable(sub)) <==> sub.Falsy? || (sub.Text? && forall c :: c in sub.codes ==> c < 0xD800 || 0xDFFF < c)
    {
    }
  }

  lemma QuotableReads(v: Value)
    ensures Quotable(v) <==> v.Text? && forall c :: c in v.codes ==> c < 0xD800 || 0xDFFF < c
  {
    if v.Text? {
      assert forall i :: 0 <= i < |v.codes| ==> v.codes[i] in v.codes;
    }
  }

  /** A subtitle track whose file is a number is present, and cannot be quoted. */
  lemma NumberIsNotAnswerable(master: Value)
    ensures !Answerable(Partial(master, [Truthy]))
  {
    assert Present(Partial(master, [Truthy]).subtitles[0]);
  }

  /** What the memory gate of a browser launch does: nothing, a sweep, or a refusal after reclaiming a session. */
  datatype Gate = Admitted | Sweeping(now: real, order: seq<Sid>) | Refusing(now: real, order: seq<Sid>)

  /** What one browser attempt of `resolve` meets. */
  datatype Answer =
    | NoExit                                  // no proxy left to try
    | Challenged(gate: Gate)                  // rotate the exit and try again
    | Refused(gate: Gate)                     // not found or recipe error: raised as it is
    | Crashes(gate: Gate)                     // timeout or driver death: the slot is marked crashed, try again
    | Disconnected(gate: Gate)                // the client went away
    | Ready(gate: Gate, uuid: nat, ref: Ref, expiresAt: real, userKey: string, masterUrl: string, playerUrl: string,
            saved: bool, partial: Partial)      // whether the session's record could be written, and what was found

  datatype Resolution = Opened(sid: Sid) | Exhausted | Failed

  /** The memory gate raises before the page is opened. */
  predicate Turned(answer: Answer) { !answer.NoExit? && answer.gate.Refusing? }

  /** What follows the registration goes through: the record is written and the answer built. */
  predicate Completes(answer: Answer)
    requires answer.Ready?
  {
    answer.saved && Answerable(answer.partial)
  }

  /** The session an attempt registers: idle, owning its profile, not persisted since, and otherwise what was found. */
  ghost predicate IsFor(o: Session, answer: Answer)
    requires answer.Ready?
  {
    o == Session(Hex(answer.uuid), o.profile, answer.expiresAt, 0, answer.userKey, true, false, 0.0, answer.masterUrl, answer.playerUrl)
  }

  /** The attempt gets as far as a registered session, and then raises. */
  predicate Raises(answer: Answer) { answer.Ready? && !Turned(answer) && !Completes(answer) }

  /** `run` leads from `s` to `now`, and all its actions are safe exactly if `safe`. */
  ghost predicate Ran(s: Pool, run: seq<Action>, now: Pool, safe: bool) {
    Sound(s) && Sound(now) && IsRun(s, run) && now == After(s, run) && (LeaseLedger.SafeRun(s, run) <==> safe)
  }

  lemma {:induction false} AppendRun(s: Pool, run: seq<Action>, more: seq<Action>)
    requires IsRun(s, run) && IsRun(After(s, run), more)
    ensures IsRun(s, run + more) && After(s, run + more) == After(After(s, run), more)
    ensures LeaseLedger.SafeRun(s, run + more) <==> LeaseLedger.SafeRun(s, run) && LeaseLedger.SafeRun(After(s, run), more)
    decreases |run|
  {
    hide Sound, Enabled, Apply, LeaseLedger.Safe;
    if run == [] {
      assert run + more == more;
    } else {
      AppendRun(Apply(s, run[0]), run[1..], more);
      assert (run + more)[1..] == run[1..] + more && (run + more)[0] == run[0];
    }
  }

  lemma RanSound(s: Pool, run: seq<Action>, now: Pool, safe: bool)
    requires Ran(s, run, now, safe)
    ensures Sound(s) && Sound(now)
  {
  }

  /** Runs can be put one behind the other. */
  lemma RanMore(s: Pool, run: seq<Action>, mid: Pool, safe: bool, more: seq<Action>, now: Pool, safer: bool)
    requires Ran(s, run, mid, safe) && Ran(mid, more, now, safer)
    ensures Ran(s, run + more, now, safe && safer)
  {
    hide Sound;
    AppendRun(s, run, more);
  }

  lemma RanOne(s: Pool, a: Action)
    requires Sound(s) && Enabled(s, a)
    ensures Ran(s, [a], Apply(s, a), LeaseLedger.Safe(s, a))
  {
    LeaseLedger.StepSound(s, a);
    hide Sound, Enabled, Apply, LeaseLedger.Safe;
    var now := Apply(s, a);
    assert [a][1..] == [] && [a][0] == a;
    assert IsRun(now, []) && After(now, []) == now && LeaseLedger.SafeRun(now, []);
    assert IsRun(s, [a]) && After(s, [a]) == now;
  }

  lemma RanNone(s: Pool)
    requires Sound(s)
    ensures Ran(s, [], s, true)
  {
  }

  /** A TTL sweep is a safe run. */
  lemma RanSweep(s: Pool, order: seq<Sid>, now: real) returns (run: seq<Action>)
    requires Sound(s)
    ensures Ran(s, run, Sweep(s, order, now), true)
  {
    hide Sound;
    run := SweepIsRun(s, order, now);
    SweepsAreSafe(s, run);
  }

  /** Only sweeps: every action of the run is safe. */
  lemma {:induction false} SweepsAreSafe(s: Pool, run: seq<Action>)
    requires IsRun(s, run) && forall i :: 0 <= i < |run| ==> run[i].SweepExpired?
    ensures LeaseLedger.SafeRun(s, run)
    decreases |run|
  {
    hide Sound, Enabled, Apply;
    if run != [] {
      SweepsAreSafe(Apply(s, run[0]), run[1..]);
    }
  }

  /** The attempt gets as far as an answer. */
  predicate Answers(answer: Answer) { answer.Ready? && !Turned(answer) && Completes(answer) }

  /** The attempt ends the request, one way or the other. */
  predicate Ends(answer: Answer) {
    answer.NoExit? || Turned(answer) || answer.Refused? || answer.Disconnected? || Answers(answer)
  }

  /** Fresh sessions are fresh towards each other. */
  ghost predicate Distinct(answers: seq<Answer>) {
    forall i, j :: 0 <= i < j < |answers| && answers[i].Ready? && answers[j].Ready? ==>
      answers[i].ref != answers[j].ref && answers[i].uuid != answers[j].uuid
  }

  /** The `i`-th gate's order is the dictionary's, sessions of earlier attempts included. */
  ghost predicate GateLists(s: Pool, answers: seq<Answer>, i: nat)
    requires i < |answers|
  {
    !answers[i].NoExit? && !answers[i].gate.Admitted? ==>
      Lists(s, answers[i].gate.order)
      && forall j :: 0 <= j < i && answers[j].Ready? ==> Hex(answers[j].uuid) in answers[i].gate.order
  }

  lemma Begin(s: Pool, t: Tid, left: nat)
    requires Sound(s) && t !in s.tasks
    ensures var a := Start(t, ResolveJob(left));
            && Enabled(s, a) && Ran(s, [a], Apply(s, a), true)
            && Apply(s, a).tasks == s.tasks[t := Work(ResolveJob(left), Seeking)]
            && Apply(s, a).objects == s.objects && Apply(s, a).sessions == s.sessions
  {
    RanOne(s, Start(t, ResolveJob(left)));
  }

  lemma GivingUp(s: Pool, t: Tid, left: nat)
    requires Sound(s) && t in s.tasks && s.tasks[t] == Work(ResolveJob(left), Seeking)
    ensures Enabled(s, GiveUp(t)) && Ran(s, [GiveUp(t)], Apply(s, GiveUp(t)), true) && Apply(s, GiveUp(t)) == EndTask(s, t)
  {
    RanOne(s, GiveUp(t));
  }

  lemma Taking(s: Pool, t: Tid, p: Pid)
    requires Sound(s) && Enabled(s, Action.Acquire(t, p))
    ensures var a := Action.Acquire(t, p);
            && Ran(s, [a], Apply(s, a), true)
            && Apply(s, a).sessions == s.sessions && Apply(s, a).objects == s.objects
            && t in s.tasks && s.tasks[t].Work? && Apply(s, a).tasks == s.tasks[t := Work(s.tasks[t].job, Holding(p))]
  {
    RanOne(s, Action.Acquire(t, p));
  }

  /** The sessions and objects of earlier attempts. */
  ghost predicate FromAttempts(s: Pool, now: Pool, answers: seq<Answer>, used: nat)
    requires used <= |answers|
  {
    && (forall r :: r in now.objects ==> r in s.objects || exists i :: 0 <= i < used && answers[i].Ready? && answers[i].ref == r)
    && (forall sid :: sid in now.sessions ==>
          sid in s.sessions || exists i :: 0 <= i < used && Raises(answers[i]) && sid == Hex(answers[i].uuid))
  }

  /** The next attempt's session is still fresh. */
  lemma Unused(s: Pool, now: Pool, answers: seq<Answer>, used: nat, t: Tid, job: Job, stage: Stage)
    requires used < |answers| && answers[used].Ready? && Distinct(answers) && FromAttempts(s, now, answers, used)
    requires answers[used].ref !in s.objects && FreshSid(s, Hex(answers[used].uuid))
    requires t !in s.tasks && now.tasks == s.tasks[t := Work(job, stage)] && job.ResolveJob?
    ensures answers[used].ref !in now.objects && FreshSid(now, Hex(answers[used].uuid))
  {
  }

  lemma OneMore(s: Pool, before: Pool, now: Pool, answers: seq<Answer>, used: nat)
    requires used < |answers| && FromAttempts(s, before, answers, used)
    requires now.objects.Keys <= before.objects.Keys + (if answers[used].Ready? then {answers[used].ref} else {})
    requires now.sessions.Keys <= before.sessions.Keys
                                  + (if answers[used].Ready? && !Turned(answers[used]) then {Hex(answers[used].uuid)} else {})
    ensures FromAttempts(s, now.(sessions := now.sessions - if Answers(answers[used]) then {Hex(answers[used].uuid)} else {}),
                         answers, used + 1)
    ensures !Answers(answers[used]) ==> FromAttempts(s, now, answers, used + 1)
  {
    var gone := if Answers(answers[used]) then {Hex(answers[used].uuid)} else {};
    var left := now.(sessions := now.sessions - gone);
    forall sid | sid in left.sessions
      ensures sid in s.sessions || exists i :: 0 <= i < used + 1 && Raises(answers[i]) && sid == Hex(answers[i].uuid)
    {
      assert sid in before.sessions || (Raises(answers[used]) && sid == Hex(answers[used].uuid));
    }
  }

  lemma TurnExhausted(s: Pool, before: Pool, now: Pool, answers: seq<Answer>, used: nat, t: Tid)
    requires used < |answers| && FromAttempts(s, before, answers, used) && now == EndTask(before, t) && NoneFree(now)
    requires t !in s.tasks && now.tasks == s.tasks
    ensures Turn(s, now, answers, used, t, Some(Exhausted))
  {
    SameAttempts(s, before, now, answers, used);
  }

  lemma TurnMade(s: Pool, before: Pool, now: Pool, answers: seq<Answer>, used: nat, t: Tid, left: nat, ended: Option<Resolution>)
    requires used < |answers| && left == |answers| - 1 - used && FromAttempts(s, before, answers, used) && t !in s.tasks
    requires before.tasks.Keys == s.tasks.Keys + {t} && before.tasks - {t} == s.tasks
    requires now.tasks == if ended.None? && left > 0 then before.tasks[t := Work(ResolveJob(left - 1), Seeking)] else before.tasks - {t}
    requires (ended.Some? <==> Ends(answers[used])) && (ended.Some? && ended.value.Opened? <==> Answers(answers[used]))
    requires ended.Some? && !Answers(answers[used]) ==> ended.value.Failed?
    requires ended.Some? && ended.value.Opened? ==>
               answers[used].Ready? && ended.value.sid == Hex(answers[used].uuid)
               && Registered(now, ended.value.sid) && IsFor(At(now, ended.value.sid), answers[used])
    requires now.objects.Keys <= before.objects.Keys + (if answers[used].Ready? then {answers[used].ref} else {})
    requires now.sessions.Keys <= before.sessions.Keys
                                  + (if answers[used].Ready? && !Turned(answers[used]) then {Hex(answers[used].uuid)} else {})
    ensures Turn(s, now, answers, used, t, ended)
  {
    OneMore(s, before, now, answers, used);
    hide FromAttempts, Ends, Answers, Turned;
  }

  lemma OrderCovers(s: Pool, now: Pool, answers: seq<Answer>, used: nat)
    requires used < |answers| && GateLists(s, answers, used) && FromAttempts(s, now, answers, used)
    ensures !answers[used].NoExit? && !answers[used].gate.Admitted? ==> Lists(now, answers[used].gate.order)
  {
  }

  lemma SameAttempts(s: Pool, before: Pool, now: Pool, answers: seq<Answer>, used: nat)
    requires used <= |answers| && FromAttempts(s, before, answers, used)
    requires now.sessions == before.sessions && now.objects == before.objects
    ensures FromAttempts(s, now, answers, used)
  {
  }

  /** Before the `used`-th turn: the ones before it asked for a retry. */
  ghost predicate Underway(s: Pool, now: Pool, answers: seq<Answer>, used: nat, t: Tid)
    requires used <= |answers|
  {
    && now.tasks == (if used < |answers| then s.tasks[t := Work(ResolveJob(|answers| - 1 - used), Seeking)] else s.tasks)
    && FromAttempts(s, now, answers, used) && forall i :: 0 <= i < used ==> !Ends(answers[i])
  }

  ghost predicate NoneFree(s: Pool) { forall p: Pid :: p < |s.profiles| ==> s.profiles[p].leased || s.profiles[p].status != Healthy }

  /** After the `used`-th turn. */
  ghost predicate Turn(s: Pool, now: Pool, answers: seq<Answer>, used: nat, t: Tid, ended: Option<Resolution>)
    requires used < |answers|
  {
    match ended
    case None =>
      && !Ends(answers[used]) && FromAttempts(s, now, answers, used + 1)
      && now.tasks == (if used + 1 < |answers| then s.tasks[t := Work(ResolveJob(|answers| - 2 - used), Seeking)] else s.tasks)
    case Some(result) =>
      && now.tasks == s.tasks
      && match result
         case Exhausted => NoneFree(now) && FromAttempts(s, now, answers, used)
         case Failed => Ends(answers[used]) && !Answers(answers[used]) && FromAttempts(s, now, answers, used + 1)
         case Opened(sid) =>
           && Answers(answers[used]) && sid == Hex(answers[used].uuid) && Registered(now, sid) && IsFor(At(now, sid), answers[used])
           && FromAttempts(s, now.(sessions := now.sessions - {sid}), answers, used + 1)
  }

  /** How a request ends.  Every attempt but the last asked for a retry; it is exhausted when no profile is free,
      opened exactly when the last attempt gets as far as an answer, and failed when the attempts are used up or the
      last one cannot be retried.  The only sessions it adds are the one it opened, and one for every attempt whose
      answer raised. */
  ghost predicate Result(s: Pool, now: Pool, answers: seq<Answer>, used: nat, result: Resolution)
    requires used <= |answers|
  {
    && (forall i :: 0 <= i < used - 1 ==> !Ends(answers[i]))
    && match result
       case Exhausted => NoneFree(now) && (used > 0 ==> !Ends(answers[used - 1])) && FromAttempts(s, now, answers, used)
       case Failed =>
         && (used == |answers| || (used > 0 && Ends(answers[used - 1]))) && (used > 0 ==> !Answers(answers[used - 1]))
         && FromAttempts(s, now, answers, used)
       case Opened(sid) =>
         && used > 0 && Answers(answers[used - 1]) && sid == Hex(answers[used - 1].uuid)
         && Registered(now, sid) && IsFor(At(now, sid), answers[used - 1])
         && FromAttempts(s, now.(sessions := now.sessions - {sid}), answers, used)
  }

  lemma ResultReads(s: Pool, now: Pool, answers: seq<Answer>, used: nat, result: Resolution)
    requires used <= |answers| && Result(s, now, answers, used, result)
    ensures forall i :: 0 <= i < used - 1 ==>
              && (answers[i].Challenged? || answers[i].Crashes? || (answers[i].Ready? && !(answers[i].saved && Answerable(answers[i].partial))))
              && !answers[i].gate.Refusing?
    ensures result.Opened? <==>
              && used > 0 && answers[used - 1].Ready? && !answers[used - 1].gate.Refusing?
              && answers[used - 1].saved && Answerable(answers[used - 1].partial) && !result.Exhausted?
    ensures result.Opened? ==>
              && result.sid == Hex(answers[used - 1].uuid) && Registered(now, result.sid) && IsFor(At(now, result.sid), answers[used - 1])
    ensures result.Exhausted? ==> NoneFree(now)
  {
    hide FromAttempts, NoneFree, Answerable, IsFor;
    forall i | 0 <= i < used - 1 ensures !Ends(answers[i]) {
    }
  }

  lemma TurnDone(s: Pool, now: Pool, answers: seq<Answer>, used: nat, t: Tid, ended: Option<Resolution>)
    requires used < |answers| && (forall i :: 0 <= i < used ==> !Ends(answers[i])) && Turn(s, now, answers, used, t, ended)
    ensures ended.None? ==> Underway(s, now, answers, used + 1, t)
    ensures ended.Some? ==>
              now.tasks == s.tasks && Result(s, now, answers, if ended.value.Exhausted? then used else used + 1, ended.value)
  {
    hide FromAttempts, Ends, Answers, NoneFree;
  }

  lemma UnderwayRetries(s: Pool, now: Pool, answers: seq<Answer>, used: nat, t: Tid)
    requires used <= |answers| && Underway(s, now, answers, used, t)
    ensures forall i :: 0 <= i < used ==> !Ends(answers[i])
  {
  }

  /** No attempt up to the `used`-th registered a session it could not answer for. */
  predicate NoneRaises(answers: seq<Answer>, used: nat)
    requires used <= |answers|
  {
    forall i | 0 <= i < used :: !Raises(answers[i])
  }

  lemma NextRaises(answers: seq<Answer>, used: nat)
    requires used < |answers|
    ensures NoneRaises(answers, used + 1) <==> NoneRaises(answers, used) && !Raises(answers[used])
  {
    hide Raises;
  }

  lemma Starting(s: Pool, now: Pool, answers: seq<Answer>, t: Tid)
    requires |answers| > 0 && now.tasks == s.tasks[t := Work(ResolveJob(|answers| - 1), Seeking)]
    requires now.sessions == s.sessions && now.objects == s.objects
    ensures Underway(s, now, answers, 0, t) && NoneRaises(answers, 0)
  {
  }

  lemma Allowed(s: Pool, answers: seq<Answer>, used: nat)
    requires Resolvable(s, answers) && used < |answers|
    ensures Distinct(answers) && GateLists(s, answers, used)
    ensures answers[used].Ready? ==> answers[used].ref !in s.objects && FreshSid(s, Hex(answers[used].uuid))
  {
  }

  lemma AllTurned(s: Pool, now: Pool, answers: seq<Answer>, t: Tid)
    requires Underway(s, now, answers, |answers|, t)
    ensures now.tasks == s.tasks && Result(s, now, answers, |answers|, Failed)
  {
    hide FromAttempts, NoneFree;
  }

  /** What a request may rely on: fresh identities, and orders that are the dictionary's. */
  ghost predicate Resolvable(s: Pool, answers: seq<Answer>) {
    && Distinct(answers)
    && forall i :: 0 <= i < |answers| ==>
         GateLists(s, answers, i) && (answers[i].Ready? ==> answers[i].ref !in s.objects && FreshSid(s, Hex(answers[i].uuid)))
  }

  lemma Killing(s: Pool, sid: Sid, now: real)
    requires Sound(s) && Killable(s, sid, now)
    ensures Ran(s, [Action.ForceKill(sid, now)], Evicted(s, sid), true)
  {
    RanOne(s, Action.ForceKill(sid, now));
  }

  lemma EvictedParts(s: Pool, sid: Sid)
    requires Sound(s) && Registered(s, sid)
    ensures var s' := Evicted(s, sid);
            s'.tasks == s.tasks && s'.objects == s.objects && s'.sessions == s.sessions - {sid} && |s'.profiles| == |s.profiles|
  {
  }

  lemma Evicting(s: Pool, sid: Sid)
    requires Sound(s) && Enabled(s, EvictLru(sid))
    ensures Registered(s, sid) && Ran(s, [EvictLru(sid)], Evicted(s, sid), true)
  {
    RanOne(s, EvictLru(sid));
  }

  lemma StillFresh(s: Pool, s': Pool, sid: Sid)
    requires FreshSid(s, sid) && s'.sessions.Keys <= s.sessions.Keys && s'.tasks == s.tasks
    ensures FreshSid(s', sid)
  {
  }

  class CamoufoxEngine {
    const manager: ProfileManager
    var objects: map<Ref, Session>
    var sessions: map<Sid, Ref>
    var degradedKills: map<Sid, real>
    ghost var tasks: map<Tid, Task>

    constructor (poolSize: nat)
      requires poolSize >= 1
      ensures fresh(manager) && Initial(State()) && |manager.profiles| == poolSize && degradedKills == map[]
    {
      manager := new ProfileManager(poolSize);
      objects, sessions, degradedKills, tasks := map[], map[], map[], map[];
    }

    ghost function State(): Pool
      reads this, manager
    {
      Pool(manager.profiles, objects, sessions, tasks, manager.secondReleases)
    }

    predicate Known(sid: Sid)
      reads this
    {
      sid in sessions && sessions[sid] in objects
    }

    /** Some registered rider shares the profile. */
    method ProfileHasRider(p: Pid, order: seq<Sid>) returns (found: bool)
      requires Lists(State(), order)
      ensures found == HasRider(State(), p)
    {
      for i := 0 to |order|
        invariant forall k :: 0 <= k < i && Registered(State(), order[k]) ==>
                    At(State(), order[k]).ownsProfile || At(State(), order[k]).profile != p
      {
        if Known(order[i]) && !objects[sessions[order[i]]].ownsProfile && objects[sessions[order[i]]].profile == p {
          assert Registered(State(), order[i]);
          return true;
        }
      }
      return false;
    }

    method ReleaseIfOwned(r: Ref)
      requires r in objects && objects[r].profile < |manager.profiles|
      modifies manager
      ensures State() == BrowserPool.ReleaseIfOwned(old(State()), r)
    {
      if objects[r].ownsProfile {
        manager.Release(objects[r].profile, true);
      }
    }

    /** Pop, schedule the page close, release if owned. */
    method Remove(sid: Sid)
      requires Sound(State()) && Registered(State(), sid)
      modifies this`sessions, manager
      ensures State() == Evicted(old(State()), sid)
    {
      var r := sessions[sid];
      sessions := sessions - {sid};
      ReleaseIfOwned(r);
    }

    method EvictExpired(now: real, order: seq<Sid>)
      requires Sound(State()) && Lists(State(), order)
      modifies this`sessions, manager
      ensures State() == Sweep(old(State()), order, now)
      ensures var s := old(State());
              && (forall sid :: sid in s.sessions && sid !in sessions ==>
                    s.objects[s.sessions[sid]].expiresAt <= now && s.objects[s.sessions[sid]].inUse == 0)
              && (forall sid, r :: sid in s.sessions && r in sessions ==>
                    var o, rider := s.objects[s.sessions[sid]], s.objects[s.sessions[r]];
                    o.ownsProfile && !rider.ownsProfile && rider.profile == o.profile ==> sid in sessions)
              && (forall sid :: sid in s.sessions ==>
                    var o := s.objects[s.sessions[sid]];
                    o.expiresAt <= now && o.inUse == 0
                    && (o.ownsProfile ==> forall r :: r in s.sessions ==>
                          s.objects[s.sessions[r]].ownsProfile || s.objects[s.sessions[r]].profile != o.profile) ==>
                      sid !in sessions)
    {
      for i := 0 to |order|
        invariant Sound(State()) && Lists(State(), order) && objects == old(objects) && tasks == old(tasks)
        invariant Sweep(State(), order[i..], now) == Sweep(old(State()), order, now)
      {
        var sid := order[i];
        if Known(sid) {
          var o := objects[sessions[sid]];
          var hosting := ProfileHasRider(o.profile, order);
          if o.expiresAt <= now && o.inUse == 0 && !(o.ownsProfile && hosting) {
            LeaseLedger.EvictedSound(State(), sid);
            Remove(sid);
          }
        }
      }
      SweepInFields(old(State()), order, now);
    }

    /** The least recently used session that is idle, not draining and hosts no rider, if there is one. */
    method EvictOneLru(order: seq<Sid>) returns (freed: bool)
      requires Sound(State()) && Lists(State(), order)
      modifies this`sessions, manager
      ensures freed <==> exists sid :: LruCandidate(old(State()), sid)
      ensures var s := old(State());
              freed <==> (exists sid :: (sid in s.sessions && s.sessions[sid] in s.objects
                                         && var o := s.objects[s.sessions[sid]];
                                            o.inUse == 0 && !o.draining
                                            && forall r :: r in s.sessions && s.sessions[r] in s.objects ==>
                                                 s.objects[s.sessions[r]].ownsProfile || s.objects[s.sessions[r]].profile != o.profile))
      ensures var s := old(State());
              freed ==> (exists sid :: (sid in s.sessions && s.sessions[sid] in s.objects
                                        && sessions == s.sessions - {sid}
                                        && var o := s.objects[s.sessions[sid]];
                                           o.inUse == 0 && !o.draining
                                           && forall r :: r in s.sessions && s.sessions[r] in s.objects ==>
                                                s.objects[s.sessions[r]].ownsProfile || s.objects[s.sessions[r]].profile != o.profile))
      ensures freed ==> exists sid :: Enabled(old(State()), EvictLru(sid)) && State() == Evicted(old(State()), sid)
      ensures !freed ==> State() == old(State())
    {
      var best: Option<Sid> := None;
      for i := 0 to |order|
        modifies {}
        invariant best.Some? ==> LruCandidate(State(), best.value)
        invariant forall k :: 0 <= k < i && LruCandidate(State(), order[k]) ==>
                    best.Some? && At(State(), best.value).expiresAt <= At(State(), order[k]).expiresAt
      {
        var sid := order[i];
        if Known(sid) {
          var o := objects[sessions[sid]];
          var hosting := ProfileHasRider(o.profile, order);
          if o.inUse == 0 && !o.draining && !hosting
             && (best.None? || o.expiresAt < objects[sessions[best.value]].expiresAt) {
            best := Some(sid);
          }
        }
      }
      freed := best.Some?;
      if freed {
        assert Enabled(State(), EvictLru(best.value));
        Remove(best.value);
      }
    }

    /** Kill a service session outright, unless a second look finds a user's stream or a rider's host. */
    method ForceKill(sid: Sid, now: real, order: seq<Sid>)
      requires Sound(State()) && Lists(State(), order)
      modifies this, manager
      ensures var s, s' := old(State()), State();
              if sid in s.sessions && s.sessions[sid] in s.objects
                 && (var o := s.objects[s.sessions[sid]];
                     (o.userKey == "" || (o.inUse == 0 && now - o.lastPersist >= 180.0))
                     && (forall r :: r in s.sessions && s.sessions[r] in s.objects ==>
                           s.objects[s.sessions[r]].ownsProfile || s.objects[s.sessions[r]].profile != o.profile))
              then s'.sessions == s.sessions - {sid} && s'.objects == s.objects
              else s'.sessions == s.sessions && s'.profiles == s.profiles
      ensures Killable(old(State()), sid, now) ==>
                State() == Evicted(old(State()), sid) && degradedKills == old(degradedKills)[sid := now + 120.0]
      ensures !Killable(old(State()), sid, now) ==>
                degradedKills == old(degradedKills) &&
                State() == if Registered(old(State()), sid)
                           then SetObject(old(State()), old(sessions)[sid], At(old(State()), sid).(draining := false))
                           else old(State())
    {
      if !Known(sid) {
        return;
      }
      var r := sessions[sid];
      var hosting := ProfileHasRider(objects[r].profile, order);
      if IsUser(objects[r], now) || hosting {
        objects := objects[r := objects[r].(draining := false)];
        return;
      }
      Remove(sid);
      degradedKills := degradedKills[sid := now + 120.0];
    }

    /** Kill one service session, the least recently used first; user streams and hosts are exempt.  A session
        without a user key is a service session even with a fetch in flight. */
    method EmergencyKillService(now: real, order: seq<Sid>) returns (killed: bool)
      requires Sound(State()) && Lists(State(), order)
      modifies this, manager
      ensures var s := old(State());
              killed <==> (exists sid :: (sid in s.sessions && s.sessions[sid] in s.objects
                                          && var o := s.objects[s.sessions[sid]];
                                             (o.userKey == "" || (o.inUse == 0 && now - o.lastPersist >= 180.0))
                                             && (forall r :: r in s.sessions && s.sessions[r] in s.objects ==>
                                                   s.objects[s.sessions[r]].ownsProfile || s.objects[s.sessions[r]].profile != o.profile)))
      ensures var s := old(State());
              killed ==> (exists sid :: (sid in s.sessions && s.sessions[sid] in s.objects
                                         && sessions == s.sessions - {sid}
                                         && var o := s.objects[s.sessions[sid]];
                                            (o.userKey == "" || (o.inUse == 0 && now - o.lastPersist >= 180.0))
                                            && (forall r :: r in s.sessions && s.sessions[r] in s.objects ==>
                                                  s.objects[s.sessions[r]].ownsProfile || s.objects[s.sessions[r]].profile != o.profile)))
      ensures killed <==> exists sid :: Killable(old(State()), sid, now)
      ensures killed ==> exists sid :: Killable(old(State()), sid, now) && State() == Evicted(old(State()), sid)
                           && forall other :: Killable(old(State()), other, now) ==>
                                At(old(State()), sid).expiresAt <= At(old(State()), other).expiresAt
      ensures !killed ==> State() == old(State())
    {
      var best: Option<Sid> := None;
      for i := 0 to |order|
        modifies {}
        invariant best.Some? ==> Killable(State(), best.value, now)
        invariant forall k :: 0 <= k < i && Killable(State(), order[k], now) ==>
                    best.Some? && At(State(), best.value).expiresAt <= At(State(), order[k]).expiresAt
      {
        var sid := order[i];
        if Known(sid) {
          var o := objects[sessions[sid]];
          var hosting := ProfileHasRider(o.profile, order);
          if !IsUser(o, now) && !hosting && (best.None? || o.expiresAt < objects[sessions[best.value]].expiresAt) {
            best := Some(sid);
          }
        }
      }
      killed := best.Some?;
      if killed {
        ForceKill(best.value, now, order);
      }
    }

    /** Service sessions first, then users; the least recently used of the class.  Never a draining one, and a rider's
        host only as a user's. */
    method PickVictim(now: real, order: seq<Sid>) returns (victim: Option<Sid>)
      requires Lists(State(), order)
      ensures ScaleDown.Picked(State(), victim, now)
      ensures victim.Some? ==>
                && victim.value in sessions && sessions[victim.value] in objects
                && var o := objects[sessions[victim.value]];
                   !o.draining
                   && (o.userKey == "" || (o.inUse == 0 && now - o.lastPersist >= 180.0) ==>
                         forall r :: r in sessions && sessions[r] in objects ==>
                           objects[sessions[r]].ownsProfile || objects[sessions[r]].profile != o.profile)
      ensures forall sid :: sid in sessions && sessions[sid] in objects ==>
                var o := objects[sessions[sid]];
                var service := o.userKey == "" || (o.inUse == 0 && now - o.lastPersist >= 180.0);
                !o.draining
                && (service ==> forall r :: r in sessions && sessions[r] in objects ==>
                                  objects[sessions[r]].ownsProfile || objects[sessions[r]].profile != o.profile) ==>
                  victim.Some?
                  && var v := objects[sessions[victim.value]];
                     var first := v.userKey == "" || (v.inUse == 0 && now - v.lastPersist >= 180.0);
                     (service ==> first) && (service == first ==> v.expiresAt <= o.expiresAt)
    {
      var service: Option<Sid>, user: Option<Sid> := None, None;
      for i := 0 to |order|
        invariant service.Some? ==> ScaleDown.ServiceCandidate(State(), service.value, now)
        invariant user.Some? ==> ScaleDown.UserCandidate(State(), user.value, now)
        invariant forall k :: 0 <= k < i && ScaleDown.ServiceCandidate(State(), order[k], now) ==>
                    service.Some? && At(State(), service.value).expiresAt <= At(State(), order[k]).expiresAt
        invariant forall k :: 0 <= k < i && ScaleDown.UserCandidate(State(), order[k], now) ==>
                    user.Some? && At(State(), user.value).expiresAt <= At(State(), order[k]).expiresAt
      {
        var sid := order[i];
        if Known(sid) && !objects[sessions[sid]].draining {
          var o := objects[sessions[sid]];
          var hosting := ProfileHasRider(o.profile, order);
          if IsUser(o, now) {
            if user.None? || o.expiresAt < objects[sessions[user.value]].expiresAt {
              user := Some(sid);
            }
          } else if !hosting {
            if service.None? || o.expiresAt < objects[sessions[service.value]].expiresAt {
              service := Some(sid);
            }
          }
        }
      }
      victim := if service.Some? then service else user;
    }

    // ----- resolve -----

    /** The answer's JSON, built after the session was registered; raises on an address that cannot be quoted. */
    method SessionPayload(partial: Partial) returns (answered: bool)
      ensures answered <==> Answerable(partial)
      ensures answered <==>
                && partial.master.Text? && (forall c :: c in partial.master.codes ==> c < 0xD800 || 0xDFFF < c)
                && forall sub :: sub in partial.subtitles ==>
                     sub.Falsy? || (sub.Text? && forall c :: c in sub.codes ==> c < 0xD800 || 0xDFFF < c)
    {
      AnswerableReads(partial);
      if !Quotable(partial.master) {
        return false;
      }
      for i := 0 to |partial.subtitles|
        invariant forall k :: 0 <= k < i && Present(partial.subtitles[k]) ==> Quotable(partial.subtitles[k])
      {
        if Present(partial.subtitles[i]) && !Quotable(partial.subtitles[i]) {
          return false;
        }
      }
      return true;
    }

    ghost predicate AtWork(t: Tid, job: Job, stage: Stage)
      reads this
    {
      t in tasks && tasks[t] == Work(job, stage)
    }

    /** A step of coroutine `t` that touches nothing but its own place. */
    ghost method Move(t: Tid, a: Action)
      requires Sound(State()) && Enabled(State(), a) && (a.Start? || a.Fail? || a.GiveUp?) && a.t == t
      modifies this`tasks
      ensures State() == Apply(old(State()), a)
    {
      tasks := Apply(State(), a).tasks;
    }

    method Acquire(t: Tid, job: Job) returns (p: Option<Pid>)
      requires Sound(State()) && AtWork(t, job, Seeking)
      modifies this`tasks, manager`profiles
      ensures p.None? ==> State() == old(State()) && forall q: Pid :: !manager.Free(q)
      ensures p.Some? ==> Enabled(old(State()), Action.Acquire(t, p.value))
                          && State() == Apply(old(State()), Action.Acquire(t, p.value)) && AtWork(t, job, Holding(p.value))
    {
      p := manager.Lease(None);
      if p.Some? {
        tasks := tasks[t := Work(job, Holding(p.value))];
      }
    }

    /** `_teardown` of a browser at fault: the slot is marked crashed. */
    method TearDown(p: Pid) returns (ghost a: Action)
      requires Sound(State()) && p < |manager.profiles|
      modifies manager`profiles
      ensures a.Health? && a.p == p && Enabled(old(State()), a) && State() == Apply(old(State()), a)
      ensures manager.profiles[p].status == Crashed && !manager.Free(p)
    {
      manager.MarkCrashed(p);
      ghost var q := manager.profiles[p];
      a := Health(p, q.status, q.launched, q.consecutiveFail, q.uses);
    }

    method ReturnProfile(t: Tid, left: nat, p: Pid, again: bool)
      requires Sound(State()) && AtWork(t, ResolveJob(left), CleaningUp(p, again))
      modifies this`tasks, manager
      ensures Enabled(old(State()), ReturnLease(t)) && State() == Apply(old(State()), ReturnLease(t))
      ensures objects == old(objects) && sessions == old(sessions) && |manager.profiles| == |old(manager.profiles)|
      ensures tasks == if again && left > 0 then old(tasks)[t := Work(ResolveJob(left - 1), Seeking)] else old(tasks) - {t}
      ensures p < |manager.profiles| && !manager.profiles[p].leased && manager.profiles[p].status == old(manager.profiles)[p].status
    {
      LeaseLedger.HeldExists(State(), t);
      manager.Release(p, false);
      tasks := if again && left > 0 then tasks[t := Work(ResolveJob(left - 1), Seeking)] else tasks - {t};
    }

    /** The end of an except clause: tear the browser down if it is at fault, release, retry or raise. */
    method CleanUp(t: Tid, left: nat, p: Pid, crashed: bool, again: bool) returns (ghost run: seq<Action>)
      requires Sound(State()) && AtWork(t, ResolveJob(left), CleaningUp(p, again))
      modifies this`tasks, manager
      ensures Ran(old(State()), run, State(), true)
      ensures objects == old(objects) && sessions == old(sessions)
      ensures tasks == if again && left > 0 then old(tasks)[t := Work(ResolveJob(left - 1), Seeking)] else old(tasks) - {t}
      ensures p < |manager.profiles| && !manager.profiles[p].leased && (crashed ==> manager.profiles[p].status == Crashed)
    {
      ghost var s := State();
      LeaseLedger.HeldExists(s, t);
      RanNone(s);
      run := [];
      hide Apply, Enabled, Sound, Ran;
      if crashed {
        ghost var a := TearDown(p);
        RanOne(s, a);
        run := [a];
      }
      ghost var mid := State();
      assert Sound(mid) by { RanSound(s, run, mid, true); }
      ReturnProfile(t, left, p, again);
      RanOne(mid, ReturnLease(t));
      RanMore(s, run, mid, true, [ReturnLease(t)], State(), true);
      run := run + [ReturnLease(t)];
    }

    /** Over the hard budget: kill a service session, or else evict the least recently used idle one. */
    method Reclaim(now: real, order: seq<Sid>) returns (ghost run: seq<Action>)
      requires Sound(State()) && Lists(State(), order)
      modifies this, manager
      ensures Ran(old(State()), run, State(), true)
      ensures tasks == old(tasks) && objects == old(objects) && sessions.Keys <= old(sessions.Keys)
      ensures |manager.profiles| == |old(manager.profiles)|
      ensures run == [] ==> forall sid :: !Killable(State(), sid, now) && !LruCandidate(State(), sid)
    {
      hide Sound, Evicted, Ran, HasRider;
      ghost var s := State();
      LeaseLedger.TasksFit(s);
      run := [];
      RanNone(s);
      var killed := EmergencyKillService(now, order);
      if killed {
        ghost var sid :| Killable(s, sid, now) && State() == Evicted(s, sid);
        run := [Action.ForceKill(sid, now)];
        Killing(s, sid, now);
        EvictedParts(s, sid);
      } else {
        var freed := EvictOneLru(order);
        if freed {
          ghost var sid :| Enabled(s, EvictLru(sid)) && State() == Evicted(s, sid);
          run := [EvictLru(sid)];
          Evicting(s, sid);
          EvictedParts(s, sid);
        }
      }
    }

    /** The memory gate at a browser launch. */
    method AdmitLaunch(gate: Gate) returns (admitted: bool, ghost run: seq<Action>)
      requires Sound(State()) && (!gate.Admitted? ==> Lists(State(), gate.order))
      modifies this, manager
      ensures admitted == !gate.Refusing?
      ensures Ran(old(State()), run, State(), true)
      ensures tasks == old(tasks) && objects == old(objects) && sessions.Keys <= old(sessions.Keys)
      ensures |manager.profiles| == |old(manager.profiles)|
      ensures gate.Admitted? ==> run == []
      ensures gate.Sweeping? ==> State() == Sweep(old(State()), gate.order, gate.now)
    {
      hide Sound, Apply, Enabled, Ran;
      run := [];
      admitted := true;
      ghost var s := State();
      match gate {
        case Admitted => RanNone(s);
        case Sweeping(now, order) =>
          EvictExpired(now, order);
          run := RanSweep(s, order, now);
        case Refusing(now, order) =>
          admitted := false;
          run := Reclaim(now, order);
      }
    }

    /** An exception inside the try block, and what its except clause does. */
    method FailAttempt(t: Tid, left: nat, p: Pid, crashed: bool, again: bool) returns (ghost run: seq<Action>)
      requires Sound(State()) && AtWork(t, ResolveJob(left), Holding(p))
      modifies this`tasks, manager
      ensures Ran(old(State()), run, State(), true)
      ensures objects == old(objects) && sessions == old(sessions)
      ensures tasks == if again && left > 0 then old(tasks)[t := Work(ResolveJob(left - 1), Seeking)] else old(tasks) - {t}
    {
      ghost var s, a := State(), Fail(t, again);
      assert Enabled(s, a) && Apply(s, a).tasks[t] == Work(ResolveJob(left), CleaningUp(p, again));
      RanOne(s, a);
      Move(t, a);
      hide Sound, Enabled, Apply, Ran;
      ghost var mid := State();
      assert Sound(mid) by { RanSound(s, [a], mid, true); }
      run := CleanUp(t, left, p, crashed, again);
      RanMore(s, [a], mid, true, run, State(), true);
      run := [a] + run;
    }

    /** Registers the session, writes its record, then builds the answer, all inside the same try block. */
    method OpenSession(t: Tid, left: nat, p: Pid, answer: Answer) returns (answered: bool, ghost run: seq<Action>)
      requires Sound(State()) && AtWork(t, ResolveJob(left), Holding(p)) && answer.Ready?
      requires answer.ref !in objects && FreshSid(State(), Hex(answer.uuid))
      modifies this`tasks, this`objects, this`sessions
      ensures answered <==> Completes(answer)
      ensures Ran(old(State()), run, State(), answered)
      ensures objects.Keys == old(objects).Keys + {answer.ref} && sessions == old(sessions)[Hex(answer.uuid) := answer.ref]
      ensures tasks == if answered then old(tasks) - {t} else old(tasks)[t := Work(ResolveJob(left), CleaningUp(p, true))]
      ensures Registered(State(), Hex(answer.uuid)) && IsFor(At(State(), Hex(answer.uuid)), answer)
              && At(State(), Hex(answer.uuid)).profile == p
    {
      ghost var s := State();
      var Ready(_, uuid, ref, expiresAt, userKey, masterUrl, playerUrl, saved, partial) := answer;
      var o := Session(Hex(uuid), p, expiresAt, 0, userKey, true, false, 0.0, masterUrl, playerUrl);
      objects := objects[ref := o];
      sessions := sessions[Hex(uuid) := ref];
      answered := saved;
      if answered {
        answered := SessionPayload(partial);
      }
      tasks := if answered then tasks - {t} else tasks[t := Work(ResolveJob(left), CleaningUp(p, true))];
      run := [Open(t, ref, o, answered)];
      RanOne(s, run[0]);
    }

    /** One pass of the retry loop, the profile leased. */
    method Attempt(t: Tid, left: nat, p: Pid, answer: Answer) returns (ended: Option<Resolution>, ghost run: seq<Action>)
      requires Sound(State()) && AtWork(t, ResolveJob(left), Holding(p))
      requires answer.Ready? ==> answer.ref !in objects && FreshSid(State(), Hex(answer.uuid))
      requires !answer.NoExit? && !answer.gate.Admitted? ==> Lists(State(), answer.gate.order)
      modifies this, manager
      ensures Ran(old(State()), run, State(), !Raises(answer))
      ensures tasks == if ended.None? && left > 0 then old(tasks)[t := Work(ResolveJob(left - 1), Seeking)] else old(tasks) - {t}
      ensures (ended.Some? <==> Ends(answer)) && (ended.Some? && ended.value.Opened? <==> Answers(answer))
      ensures ended.Some? && !Answers(answer) ==> ended.value.Failed?
      ensures ended.Some? && ended.value.Opened? ==>
                answer.Ready? && ended.value.sid == Hex(answer.uuid) && Registered(State(), ended.value.sid)
                && IsFor(At(State(), ended.value.sid), answer) && At(State(), ended.value.sid).profile == p
      ensures objects.Keys <= old(objects).Keys + (if answer.Ready? then {answer.ref} else {})
      ensures sessions.Keys <= old(sessions).Keys
                               + (if answer.Ready? && !Turned(answer) then {Hex(answer.uuid)} else {})
    {
      hide Sound, Enabled, Apply, Completes, FreshSid, Ran;
      if answer.NoExit? {
        run := FailAttempt(t, left, p, false, false);
        return Some(Failed), run;
      }
      ghost var s := State();
      var admitted, gated := AdmitLaunch(answer.gate);
      ghost var mid := State();
      RanSound(s, gated, mid, true);
      if answer.Ready? {
        StillFresh(s, mid, Hex(answer.uuid));
      }
      ended, run := Meet(t, left, p, answer, admitted);
      RanMore(s, gated, mid, true, run, State(), !Raises(answer));
      run := gated + run;
    }

    /** What follows the memory gate. */
    method Meet(t: Tid, left: nat, p: Pid, answer: Answer, admitted: bool) returns (ended: Option<Resolution>, ghost run: seq<Action>)
      requires Sound(State()) && AtWork(t, ResolveJob(left), Holding(p)) && !answer.NoExit? && admitted == !Turned(answer)
      requires answer.Ready? ==> answer.ref !in objects && FreshSid(State(), Hex(answer.uuid))
      modifies this`tasks, this`objects, this`sessions, manager
      ensures Ran(old(State()), run, State(), !Raises(answer))
      ensures tasks == if ended.None? && left > 0 then old(tasks)[t := Work(ResolveJob(left - 1), Seeking)] else old(tasks) - {t}
      ensures (ended.Some? <==> Ends(answer)) && (ended.Some? && ended.value.Opened? <==> Answers(answer))
      ensures ended.Some? && !Answers(answer) ==> ended.value.Failed?
      ensures ended.Some? && ended.value.Opened? ==>
                answer.Ready? && ended.value.sid == Hex(answer.uuid) && Registered(State(), ended.value.sid)
                && IsFor(At(State(), ended.value.sid), answer) && At(State(), ended.value.sid).profile == p
      ensures objects.Keys <= old(objects).Keys + (if answer.Ready? then {answer.ref} else {})
      ensures sessions.Keys <= old(sessions).Keys
                               + (if answer.Ready? && !Turned(answer) then {Hex(answer.uuid)} else {})
    {
      hide Sound, Enabled, Apply, Completes, FreshSid, Ran;
      ended := None;
      if !admitted {
        run := FailAttempt(t, left, p, false, false);
        return Some(Failed), run;
      }
      match answer {
        case NoExit =>
          assert false;
          run := [];
        case Challenged(_) =>
          run := FailAttempt(t, left, p, false, true);
        case Refused(_) =>
          run := FailAttempt(t, left, p, false, false);
          ended := Some(Failed);
        case Crashes(_) =>
          run := FailAttempt(t, left, p, true, true);
        case Disconnected(_) =>
          run := FailAttempt(t, left, p, true, false);
          ended := Some(Failed);
        case Ready(_, _, _, _, _, _, _, _, _) =>
          ghost var s := State();
          var answered, opening := OpenSession(t, left, p, answer);
          if answered {
            return Some(Opened(Hex(answer.uuid))), opening;
          }
          ghost var mid := State();
          RanSound(s, opening, mid, false);
          ghost var cleaning := CleanUp(t, left, p, true, true);
          RanMore(s, opening, mid, false, cleaning, State(), true);
          run := opening + cleaning;
      }
    }

    /** One turn of the retry loop: lease, then attempt. */
    method OneTry(ghost s: Pool, answers: seq<Answer>, used: nat, t: Tid) returns (ended: Option<Resolution>, ghost more: seq<Action>)
      requires used < |answers| && Sound(State()) && Distinct(answers) && t !in s.tasks && Underway(s, State(), answers, used, t)
      requires answers[used].Ready? ==> answers[used].ref !in s.objects && FreshSid(s, Hex(answers[used].uuid))
      requires GateLists(s, answers, used)
      modifies this, manager
      ensures Ran(old(State()), more, State(), ended == Some(Exhausted) || !Raises(answers[used]))
      ensures Turn(s, State(), answers, used, t, ended)
    {
      hide Sound, Enabled, Apply, FreshSid, GateLists, Lists, Distinct, Completes, FromAttempts, Ran, Raises, Ends, Answers, Turn;
      var left, answer := |answers| - 1 - used, answers[used];
      ghost var start := State();
      var p := Acquire(t, ResolveJob(left));
      if p.None? {
        GivingUp(start, t, left);
        forall q: Pid | q < |manager.profiles| ensures manager.profiles[q].leased || manager.profiles[q].status != Healthy {
          assert !manager.Free(q);
        }
        Move(t, GiveUp(t));
        TurnExhausted(s, start, State(), answers, used, t);
        return Some(Exhausted), [GiveUp(t)];
      }
      Taking(start, t, p.value);
      ghost var now := State();
      RanSound(start, [Action.Acquire(t, p.value)], now, true);
      SameAttempts(s, start, now, answers, used);
      if answer.Ready? {
        Unused(s, now, answers, used, t, ResolveJob(left), Holding(p.value));
      }
      OrderCovers(s, now, answers, used);
      ended, more := Attempt(t, left, p.value, answer);
      RanMore(start, [Action.Acquire(t, p.value)], now, true, more, State(), !Raises(answer));
      more := [Action.Acquire(t, p.value)] + more;
      TurnMade(s, now, State(), answers, used, t, left, ended);
    }

    /** The retry loop. */
    method Tries(answers: seq<Answer>, t: Tid) returns (result: Resolution, used: nat, ghost run: seq<Action>)
      requires Sound(State()) && t !in tasks && Resolvable(State(), answers)
      modifies this, manager
      ensures used <= |answers| && tasks == old(tasks) && Result(old(State()), State(), answers, used, result)
      ensures Ran(old(State()), run, State(), NoneRaises(answers, used))
    {
      used, run := 0, [];
      ghost var s := State();
      if |answers| == 0 {
        RanNone(s);
        return Failed, 0, [];
      }
      Begin(s, t, |answers| - 1);
      hide *;
      Move(t, Start(t, ResolveJob(|answers| - 1)));
      run := [Start(t, ResolveJob(|answers| - 1))];
      Starting(s, State(), answers, t);
      var ended: Option<Resolution> := None;
      while used < |answers| && ended.None?
        invariant used <= |answers| && Ran(s, run, State(), NoneRaises(answers, used))
        invariant if ended.None? then Underway(s, State(), answers, used, t)
                  else State().tasks == s.tasks && Result(s, State(), answers, used, ended.value)
        decreases if ended.None? then |answers| - used + 1 else 0
      {
        ghost var before, more := State(), [];
        RanSound(s, run, before, NoneRaises(answers, used));
        Allowed(s, answers, used);
        UnderwayRetries(s, before, answers, used, t);
        ended, more := OneTry(s, answers, used, t);
        RanMore(s, run, before, NoneRaises(answers, used), more, State(), ended == Some(Exhausted) || !Raises(answers[used]));
        run := run + more;
        TurnDone(s, State(), answers, used, t, ended);
        NextRaises(answers, used);
        used := if ended == Some(Exhausted) then used else used + 1;
      }
      if ended.None? {
        AllTurned(s, State(), answers, t);
        ended := Some(Failed);
      }
      result := ended.value;
    }

    /** `resolve` from its first lease to its answer: `answers` is what each browser attempt meets, one more than
        the retries.  It is a run of the pool machine's own steps, whose only unsafe ones are registrations behind
        which something raises: the ledger holds throughout exactly without those, and then a success leaves one more
        lease, the new session's, and every failure none. */
    method Resolve(answers: seq<Answer>, t: Tid) returns (result: Resolution, used: nat, ghost run: seq<Action>)
      requires Sound(State()) && t !in tasks && Resolvable(State(), answers)
      modifies this, manager
      ensures used <= |answers| && tasks == old(tasks) && Result(old(State()), State(), answers, used, result)
      ensures Ran(old(State()), run, State(), NoneRaises(answers, used))
      ensures old(LeaseLedger.Inv(State())) ==>
                && IsRun(old(State()), run) && (LeaseLedger.LedgerThroughout(old(State()), run) <==> NoneRaises(answers, used))
                && (NoneRaises(answers, used) ==> LeaseLedger.Inv(State()))
      ensures forall i :: 0 <= i < used - 1 ==>
                && (answers[i].Challenged? || answers[i].Crashes? || (answers[i].Ready? && !(answers[i].saved && Answerable(answers[i].partial))))
                && !answers[i].gate.Refusing?
      ensures result.Opened? <==>
                && used > 0 && answers[used - 1].Ready? && !answers[used - 1].gate.Refusing?
                && answers[used - 1].saved && Answerable(answers[used - 1].partial) && !result.Exhausted?
      ensures result.Opened? ==>
                && result.sid == Hex(answers[used - 1].uuid) && result.sid in sessions && sessions[result.sid] in objects
                && var o, a := objects[sessions[result.sid]], answers[used - 1];
                   o.masterUrl == a.masterUrl && o.playerUrl == a.playerUrl && o.userKey == a.userKey && o.expiresAt == a.expiresAt
                   && o.lastPersist == 0.0 && o.inUse == 0 && o.ownsProfile && !o.draining
      ensures result.Exhausted? ==> forall p: Pid :: p < |manager.profiles| ==>
                manager.profiles[p].leased || !manager.profiles[p].status.Healthy?
    {
      hide Sound, Enabled, Apply, LeaseLedger.Inv, Resolvable, Result, NoneRaises;
      ghost var s := State();
      result, used, run := Tries(answers, t);
      ResultReads(s, State(), answers, used, result);
      if LeaseLedger.Inv(s) {
        LeaseLedger.RunExact(s, run);
      }
    }
  }
}
