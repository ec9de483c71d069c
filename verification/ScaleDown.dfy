/** Graduated scale-down (services/stealth-scraper/app/engine.py, `_scale_down_step`).

    One tick picks at most one victim.  A user stream may only be migrated; a service session is killed.  What
    the migration's browser answers is the tick's outcome; the clock is read when the victim is picked and
    again when it is classified.  A migration whose survivor has no running browser on its own exit launches
    one, and the launch passes the memory gate first (`_ensure_browser`, `_admit_launch`), which may itself
    sweep, kill or evict.  All this is one stretch of code. */
module ScaleDown {
  import opened Optional
  import opened BrowserPool
  import opened LeaseLedger
  import opened TtlSweep
  import opened SessionClock

  /** The kill threshold: ceil(target / 2) + 1. */
  function KillFloor(target: nat): nat { (target + 1) / 2 + 1 }

  predicate ServiceCandidate(s: Pool, sid: Sid, now: real) {
    Registered(s, sid) && !At(s, sid).draining && !IsUser(At(s, sid), now) && !HasRider(s, At(s, sid).profile)
  }

  predicate UserCandidate(s: Pool, sid: Sid, now: real) {
    Registered(s, sid) && !At(s, sid).draining && IsUser(At(s, sid), now)
  }

  ghost predicate Candidate(s: Pool, sid: Sid, now: real) {
    if exists other :: ServiceCandidate(s, other, now) then ServiceCandidate(s, sid, now) else UserCandidate(s, sid, now)
  }

  /** What `_pick_victim` may return: the least recently used session of the preferred class. */
  ghost predicate Picked(s: Pool, victim: Option<Sid>, now: real) {
    match victim
    case None => forall sid :: !Candidate(s, sid, now)
    case Some(sid) => Candidate(s, sid, now) &&
                      forall other :: Candidate(s, other, now) ==> At(s, sid).expiresAt <= At(s, other).expiresAt
  }

  predicate Survivor(s: Pool, victim: Sid, sid: Sid) { sid != victim && CanHost(s, sid) }

  /** Browsers already serving users first, the freshest of each class. */
  ghost predicate Preferred(s: Pool, victim: Sid, sid: Sid, now: real) {
    && Survivor(s, victim, sid)
    && forall other :: Survivor(s, victim, other) ==>
         (IsUser(At(s, other), now) ==> IsUser(At(s, sid), now))
         && (IsUser(At(s, other), now) == IsUser(At(s, sid), now) ==> At(s, other).expiresAt <= At(s, sid).expiresAt)
  }

  datatype Outcome =
    | Declined                                         // no player page recorded, or nobody to move to
    | Unreachable(host: Sid)                           // the survivor's browser, page or playlist fails
    | PageClosed(host: Sid)                            // the verifying fetch dies with a closed target
    | Arrived(host: Sid, ref: Ref, expiresAt: real, persistedAt: real)

  /** What the memory gate meets: whether the profile still runs on the survivor's exit, the memory in use, the
      clock, the dictionary's order, and the session the hard budget reclaims, if any. */
  datatype Admission = Admission(sameExit: bool, ram: int, at: real, order: seq<Sid>, reclaimed: Option<Sid>)

  datatype Tick = Tick(target: nat, pickedAt: real, checkedAt: real, victim: Option<Sid>, outcome: Outcome, t: Tid,
                       admission: Admission)

  /** `lag` bounds how far apart the clock readings of one tick can be. */
  datatype Config = Config(poisonMax: nat, softBudget: int, hardBudget: int, clock: Clock, lag: real)

  datatype Pressure = Low | Soft | Hard

  function PressureAt(c: Config, ram: int): Pressure {
    if ram >= c.hardBudget then Hard else if ram >= c.softBudget then Soft else Low
  }

  /** The ids a tick works with are registered. */
  ghost predicate Resolved(s: Pool, k: Tick) {
    && Sound(s)
    && (k.victim.Some? ==> Registered(s, k.victim.value) && !At(s, k.victim.value).draining)
    && (k.victim.Some? && !k.outcome.Declined? ==> Survivor(s, k.victim.value, k.outcome.host))
    && (k.victim.Some? && k.outcome.Arrived? ==> k.outcome.ref !in s.objects)
  }

  ghost predicate Moving(s: Pool, k: Tick) { Resolved(s, k) && k.victim.Some? && !k.outcome.Declined? }

  ghost function Started(s: Pool, k: Tick): (r: Pool)
    requires Moving(s, k)
    ensures Sound(r) && r.sessions == s.sessions && r.objects.Keys == s.objects.Keys
  {
    MigrationStartedSound(s, k.t, k.victim.value, k.outcome.host);
    MigrationStarted(s, k.t, k.victim.value, s.sessions[k.victim.value], s.sessions[k.outcome.host])
  }

  /** The survivor's browser has to be launched, so the memory gate is asked. */
  ghost predicate Launches(s: Pool, k: Tick)
    requires Moving(s, k)
  {
    !(s.profiles[At(s, k.outcome.host).profile].launched && k.admission.sameExit)
  }

  ghost predicate Under(s: Pool, k: Tick, c: Config, p: Pressure)
    requires Moving(s, k)
  {
    Launches(s, k) && PressureAt(c, k.admission.ram) == p
  }

  /** The hard budget: the service session that expires first, or else the least recently used idle one. */
  ghost predicate Reclaims(s: Pool, k: Tick)
    requires Moving(s, k)
  {
    var started, at := Started(s, k), k.admission.at;
    match k.admission.reclaimed
    case None => forall sid :: !Killable(started, sid, at) && !LruCandidate(started, sid)
    case Some(sid) =>
      if exists other :: Killable(started, other, at)
      then Killable(started, sid, at) &&
           forall other :: Killable(started, other, at) ==> At(started, sid).expiresAt <= At(started, other).expiresAt
      else Enabled(started, EvictLru(sid))
  }

  ghost predicate Possible(s: Pool, k: Tick, c: Config) {
    && Sound(s) && k.t !in s.tasks
    && k.pickedAt <= k.checkedAt <= k.admission.at <= k.pickedAt + c.lag
    && Picked(s, k.victim, k.pickedAt)
    && (k.victim.Some? ==>
          match k.outcome
          case Declined => At(s, k.victim.value).playerUrl == "" || forall sid :: !Survivor(s, k.victim.value, sid)
          case Unreachable(host) => Movable(s, k, host)
          case PageClosed(host) => Movable(s, k, host)
          case Arrived(host, ref, expiresAt, persistedAt) =>
            Movable(s, k, host) && ref !in s.objects && Slid(c.clock, expiresAt, persistedAt))
    && (Moving(s, k) ==>
          && (Under(s, k, c, Soft) ==> Lists(s, k.admission.order) && NoRepeats(k.admission.order))
          && (Under(s, k, c, Hard) ==> Reclaims(s, k) && k.outcome.Unreachable?))
  }

  ghost predicate Movable(s: Pool, k: Tick, host: Sid)
    requires k.victim.Some?
  {
    Registered(s, k.victim.value) && At(s, k.victim.value).playerUrl != "" && Preferred(s, k.victim.value, host, k.checkedAt)
  }

  predicate Acts(s: Pool, k: Tick) { |s.sessions| > KillFloor(k.target) && k.victim.Some? }

  /** The tick gets as far as a migration. */
  ghost predicate Migrates(s: Pool, k: Tick) { Acts(s, k) && Moving(s, k) && IsUser(At(s, k.victim.value), k.checkedAt) }

  /** `poisonMax` page crashes make an in-page fetch close the session registered under its id; at a limit
      of one, the verifying fetch of a migration closes the very stream it was to save. */
  predicate Poisons(k: Tick, c: Config) { k.outcome.PageClosed? && c.poisonMax <= 1 }

  /** The migration up to its first await: the marks are set and the memory gate has been passed or not. */
  ghost function Admitted(s: Pool, k: Tick, c: Config): Pool
    requires Moving(s, k)
  {
    var started := Started(s, k);
    if Under(s, k, c, Soft) then Sweep(started, k.admission.order, k.admission.at)
    else if Under(s, k, c, Hard) && k.admission.reclaimed.Some? && Registered(started, k.admission.reclaimed.value)
    then Evicted(started, k.admission.reclaimed.value)
    else started
  }

  /** What the gate takes away. */
  ghost function Taken(s: Pool, k: Tick, c: Config): set<Sid>
    requires Moving(s, k)
  {
    s.sessions.Keys - Admitted(s, k, c).sessions.Keys
  }

  ghost function Concluded(s: Pool, a: Pool, k: Tick, c: Config): Pool
    requires Moving(s, k) && Gated(s, a, k)
  {
    var sid := k.victim.value;
    var v, h := s.sessions[sid], s.sessions[k.outcome.host];
    if k.outcome.Arrived? then
      var moved := Moved(a.objects[v], a.objects[h], k.outcome.expiresAt, k.outcome.persistedAt);
      MigrationCommitted(a, k.t, sid, v, h, k.outcome.ref, moved)
    else
      MigrationFailed(if Poisons(k, c) && sid in a.sessions then Evicted(a, sid) else a, k.t, v, h)
  }

  /** `a` is the started migration, less some sessions. */
  ghost predicate Gated(s: Pool, a: Pool, k: Tick)
    requires Moving(s, k)
  {
    && Sound(a) && a.objects == Started(s, k).objects && a.tasks == Started(s, k).tasks
    && a.sessions.Keys <= s.sessions.Keys && forall sid :: sid in a.sessions ==> a.sessions[sid] == s.sessions[sid]
  }

  lemma AdmittedGated(s: Pool, k: Tick, c: Config)
    requires Moving(s, k)
    ensures Gated(s, Admitted(s, k, c), k)
  {
    var started := Started(s, k);
    if !Under(s, k, c, Soft) && k.admission.reclaimed.Some? && Registered(started, k.admission.reclaimed.value) {
      EvictedSound(started, k.admission.reclaimed.value);
    }
  }

  ghost function Migrated(s: Pool, k: Tick, c: Config): Pool
    requires Moving(s, k)
  {
    AdmittedGated(s, k, c);
    Concluded(s, Admitted(s, k, c), k, c)
  }

  function Killed(s: Pool, sid: Sid): Pool
    requires Sound(s) && Registered(s, sid)
  {
    if HasRider(s, At(s, sid).profile) then s
    else Evicted(SetObject(s, s.sessions[sid], At(s, sid).(draining := true)), sid)
  }

  ghost function AfterTick(s: Pool, k: Tick, c: Config): Pool
    requires Resolved(s, k)
  {
    if !Acts(s, k) then s
    else if Migrates(s, k) then Migrated(s, k, c)
    else if IsUser(At(s, k.victim.value), k.checkedAt) then s
    else Killed(s, k.victim.value)
  }

  ghost predicate Calm(s: Pool) { forall sid :: Registered(s, sid) ==> !At(s, sid).draining }

  /** The stream the player knows is the one registered. */
  ghost predicate SameStream(s: Pool, s': Pool, sid: Sid) {
    && Registered(s, sid) && Registered(s', sid)
    && At(s', sid).masterUrl == At(s, sid).masterUrl && At(s', sid).playerUrl == At(s, sid).playerUrl
    && At(s', sid).userKey == At(s, sid).userKey
  }

  // ----- one tick -----

  lemma PossibleResolved(s: Pool, k: Tick, c: Config)
    requires Possible(s, k, c)
    ensures Resolved(s, k)
  {
  }

  /** What one tick takes out of the registry, exactly. */
  ghost function Gone(s: Pool, k: Tick, c: Config): set<Sid>
    requires Resolved(s, k)
  {
    if !Acts(s, k) then {}
    else if Migrates(s, k) then
      if k.outcome.Arrived? then Taken(s, k, c) - {k.victim.value}
      else if Poisons(k, c) then Taken(s, k, c) + {k.victim.value}
      else Taken(s, k, c)
    else if IsUser(At(s, k.victim.value), k.checkedAt) || HasRider(s, At(s, k.victim.value).profile) then {}
    else {k.victim.value}
  }

  ghost predicate Keeps(s: Pool, s': Pool, gone: set<Sid>) {
    && s'.sessions.Keys == s.sessions.Keys - gone
    && (forall sid :: Registered(s, sid) && sid !in gone ==> SameStream(s, s', sid))
    && (Calm(s) ==> Calm(s'))
  }

  predicate SameSession(o: Session, o': Session) {
    o'.masterUrl == o.masterUrl && o'.playerUrl == o.playerUrl && o'.userKey == o.userKey && (o'.draining ==> o.draining)
  }

  /** Entries that are still there point at the same object as before, changed in passing marks at most. */
  lemma StreamsKept(s: Pool, s': Pool, moved: set<Sid>)
    requires Sound(s)
    requires forall sid :: sid in s'.sessions && sid !in moved ==>
               && sid in s.sessions && s'.sessions[sid] == s.sessions[sid] && s.sessions[sid] in s.objects
               && s.sessions[sid] in s'.objects && SameSession(s.objects[s.sessions[sid]], s'.objects[s.sessions[sid]])
    ensures forall sid :: sid in s'.sessions && sid !in moved ==> SameStream(s, s', sid)
    ensures Calm(s) ==> forall sid :: Registered(s', sid) && sid !in moved ==> !At(s', sid).draining
  {
    forall sid | sid in s'.sessions && sid !in moved ensures SameStream(s, s', sid) && (Calm(s) ==> !At(s', sid).draining) {
      assert Registered(s, sid);
    }
  }

  lemma StartedObjects(s: Pool, a: Pool, k: Tick)
    requires Moving(s, k) && Gated(s, a, k)
    ensures var v, h := s.sessions[k.victim.value], s.sessions[k.outcome.host];
            && v != h && v in s.objects && h in s.objects
            && a.objects == s.objects[v := s.objects[v].(draining := true)][h := s.objects[h].(inUse := s.objects[h].inUse + 1)]
    ensures s.objects[s.sessions[k.victim.value]].sid == k.victim.value
    ensures forall sid :: sid in a.sessions ==> a.sessions[sid] in s.objects && s.objects[a.sessions[sid]].sid == sid
  {
    var v, h := s.sessions[k.victim.value], s.sessions[k.outcome.host];
    assert At(s, k.victim.value).sid == k.victim.value && At(s, k.outcome.host).sid == k.outcome.host;
    forall sid | sid in a.sessions ensures a.sessions[sid] in s.objects && s.objects[a.sessions[sid]].sid == sid {
      assert Registered(s, sid) && At(s, sid).sid == sid;
    }
  }

  /** A failed migration takes its two marks back. */
  lemma MarksTakenBack(s: Pool, a: Pool, k: Tick, b: Pool)
    requires Moving(s, k) && Gated(s, a, k) && b.objects == a.objects
    ensures var v, h := s.sessions[k.victim.value], s.sessions[k.outcome.host];
            v in b.objects && h in b.objects && MigrationFailed(b, k.t, v, h).objects == s.objects
            && MigrationFailed(b, k.t, v, h).sessions == b.sessions
  {
    StartedObjects(s, a, k);
    hide Gated, Started, HasRider;
    var v, h := s.sessions[k.victim.value], s.sessions[k.outcome.host];
    var o, u := s.objects[v], s.objects[h];
    assert !o.draining;
    assert MigrationFailed(b, k.t, v, h).objects == b.objects[h := u][v := o];
  }

  /** Dropping entries touches nothing else. */
  lemma FewerKeeps(s: Pool, s': Pool, gone: set<Sid>)
    requires Sound(s) && s'.objects == s.objects && s'.sessions.Keys == s.sessions.Keys - gone
    requires forall sid :: sid in s'.sessions ==> s'.sessions[sid] == s.sessions[sid]
    ensures Keeps(s, s', gone)
  {
    StreamsKept(s, s', {});
  }

  lemma FailedKeeps(s: Pool, a: Pool, k: Tick)
    requires Moving(s, k) && Gated(s, a, k)
    ensures var v, h := s.sessions[k.victim.value], s.sessions[k.outcome.host];
            Keeps(s, MigrationFailed(a, k.t, v, h), s.sessions.Keys - a.sessions.Keys)
  {
    MarksTakenBack(s, a, k, a);
    hide MigrationFailed, Started, HasRider, Keeps;
    FewerKeeps(s, MigrationFailed(a, k.t, s.sessions[k.victim.value], s.sessions[k.outcome.host]),
               s.sessions.Keys - a.sessions.Keys);
  }

  lemma GatedRegistered(s: Pool, a: Pool, k: Tick)
    requires Moving(s, k) && Gated(s, a, k) && k.victim.value in a.sessions
    ensures Registered(a, k.victim.value) && At(a, k.victim.value).profile < |a.profiles|
    ensures Evicted(a, k.victim.value).objects == a.objects
    ensures Evicted(a, k.victim.value).sessions == a.sessions - {k.victim.value}
  {
  }

  lemma PoisonedKeeps(s: Pool, a: Pool, k: Tick)
    requires Moving(s, k) && Gated(s, a, k) && k.victim.value in a.sessions
    ensures Registered(a, k.victim.value) && At(a, k.victim.value).profile < |a.profiles|
    ensures var sid := k.victim.value;
            Keeps(s, MigrationFailed(Evicted(a, sid), k.t, s.sessions[sid], s.sessions[k.outcome.host]),
                  s.sessions.Keys - a.sessions.Keys + {sid})
  {
    var sid := k.victim.value;
    GatedRegistered(s, a, k);
    MarksTakenBack(s, a, k, Evicted(a, sid));
    hide MigrationFailed, Evicted, Started, HasRider, Keeps;
    FewerKeeps(s, MigrationFailed(Evicted(a, sid), k.t, s.sessions[sid], s.sessions[k.outcome.host]),
               s.sessions.Keys - a.sessions.Keys + {sid});
  }

  lemma ArrivedKeeps(s: Pool, a: Pool, k: Tick, c: Config)
    requires Moving(s, k) && Gated(s, a, k) && k.outcome.Arrived?
    ensures Keeps(s, Concluded(s, a, k, c), s.sessions.Keys - a.sessions.Keys - {k.victim.value})
  {
    var sid := k.victim.value;
    var s' := Concluded(s, a, k, c);
    StartedObjects(s, a, k);
    ArrivedObjects(s, a, k, c);
    hide Gated, Concluded, HasRider;
    StreamsKept(s, s', {sid});
  }

  /** The commit replaces the victim's entry by the moved session of the same stream; the marked object has left. */
  lemma ArrivedObjects(s: Pool, a: Pool, k: Tick, c: Config)
    requires Moving(s, k) && Gated(s, a, k) && k.outcome.Arrived?
    ensures var s' := Concluded(s, a, k, c); var sid := k.victim.value;
            && s'.sessions == a.sessions[sid := k.outcome.ref]
            && SameStream(s, s', sid) && !At(s', sid).draining
            && forall x :: x in a.sessions && x != sid ==>
                 && a.sessions[x] in s.objects && a.sessions[x] in s'.objects
                 && SameSession(s.objects[a.sessions[x]], s'.objects[a.sessions[x]])
  {
    hide Sound;
    StartedObjects(s, a, k);
  }

  lemma KilledKeeps(s: Pool, sid: Sid)
    requires Sound(s) && Registered(s, sid) && !HasRider(s, At(s, sid).profile)
    ensures Keeps(s, Killed(s, sid), {sid})
  {
  }

  /** Exactly which entries a tick takes out; every other stream stays the same stream, and no mark is left. */
  lemma TickKeeps(s: Pool, k: Tick, c: Config)
    requires Resolved(s, k)
    ensures Keeps(s, AfterTick(s, k, c), Gone(s, k, c))
  {
    hide HasRider, MigrationFailed, MigrationStarted, MigrationCommitted, Evicted, Started, Admitted, Under, Keeps, Gated;
    if !Acts(s, k) {
      NothingKept(s);
    } else if Migrates(s, k) {
      var a := Admitted(s, k, c);
      AdmittedGated(s, k, c);
      if k.outcome.Arrived? {
        ArrivedKeeps(s, a, k, c);
      } else {
        FailedKeeps(s, a, k);
        if Poisons(k, c) {
          PoisonTakes(s, a, k);
        }
      }
    } else if IsUser(At(s, k.victim.value), k.checkedAt) || HasRider(s, At(s, k.victim.value).profile) {
      NothingKept(s);
    } else {
      KilledKeeps(s, k.victim.value);
    }
  }

  lemma NothingKept(s: Pool)
    requires Sound(s)
    ensures Keeps(s, s, {})
  {
  }

  lemma PoisonTakes(s: Pool, a: Pool, k: Tick)
    requires Moving(s, k) && Gated(s, a, k)
    ensures k.victim.value in a.sessions ==> Registered(a, k.victim.value) && At(a, k.victim.value).profile < |a.profiles|
    ensures var sid := k.victim.value; var v, h := s.sessions[sid], s.sessions[k.outcome.host];
            Keeps(s, MigrationFailed(if sid in a.sessions then Evicted(a, sid) else a, k.t, v, h),
                  s.sessions.Keys - a.sessions.Keys + {sid})
  {
    if k.victim.value in a.sessions {
      PoisonedKeeps(s, a, k);
    } else {
      FailedKeeps(s, a, k);
      assert s.sessions.Keys - a.sessions.Keys + {k.victim.value} == s.sessions.Keys - a.sessions.Keys;
    }
  }

  // ----- the memory gate -----

  /** The gate takes nothing exactly when it is not asked, or memory is below both budgets, or nothing is due. */
  lemma TakenNothing(s: Pool, k: Tick, c: Config)
    requires Possible(s, k, c) && Moving(s, k)
    ensures Taken(s, k, c) == {} <==>
              && (Under(s, k, c, Soft) ==> forall sid :: Registered(s, sid) ==> !Sweepable(Started(s, k), s.sessions[sid], k.admission.at))
              && (Under(s, k, c, Hard) ==> k.admission.reclaimed.None?)
    ensures Taken(s, k, c) == {} ==> Admitted(s, k, c) == Started(s, k)
  {
    hide Sweepable, MigrationStarted, Evicted;
    var started, at := Started(s, k), k.admission.at;
    AdmittedGated(s, k, c);
    if Under(s, k, c, Soft) {
      SweepIdle(started, k.admission.order, at);
      SameRegistered(s, k);
      NoneMissing(s.sessions.Keys, Admitted(s, k, c).sessions.Keys);
    } else if Under(s, k, c, Hard) {
      ReclaimedLeaves(s, k, c);
    }
  }

  lemma NoneMissing<T>(whole: set<T>, part: set<T>)
    requires part <= whole
    ensures whole - part == {} <==> part == whole
  {
    if whole - part == {} {
      forall x | x in whole ensures x in part {
        assert x !in whole - part;
      }
    }
  }

  lemma SameRegistered(s: Pool, k: Tick)
    requires Moving(s, k)
    ensures forall sid :: Registered(Started(s, k), sid) <==> Registered(s, sid)
  {
  }

  lemma ReclaimedLeaves(s: Pool, k: Tick, c: Config)
    requires Moving(s, k) && Under(s, k, c, Hard) && Reclaims(s, k)
    ensures Taken(s, k, c) == if k.admission.reclaimed.Some? then {k.admission.reclaimed.value} else {}
  {
    if k.admission.reclaimed.Some? {
      var sid := k.admission.reclaimed.value;
      assert Registered(Started(s, k), sid);
      assert Evicted(Started(s, k), sid).sessions == s.sessions - {sid};
    }
  }

  /** Below both budgets, or with the survivor's browser running on its own exit, the gate takes nothing. */
  lemma GateIdle(s: Pool, k: Tick, c: Config)
    requires Moving(s, k) && (!Launches(s, k) || PressureAt(c, k.admission.ram).Low?)
    ensures Taken(s, k, c) == {}
  {
  }

  /** Whatever the gate takes under the soft budget had expired and was idle; the survivor is never taken then. */
  lemma SoftTakesExpired(s: Pool, k: Tick, c: Config, sid: Sid)
    requires Moving(s, k) && Under(s, k, c, Soft) && sid in Taken(s, k, c)
    ensures Registered(s, sid) && Expired(At(s, sid), k.admission.at) && sid != k.outcome.host
  {
    RegisteredAll(s, sid);
    var started := Started(s, k);
    SweepTakesExpired(started, k.admission.order, k.admission.at, sid);
    assert started.objects[s.sessions[k.outcome.host]].inUse > 0;
  }

  /** Due for the sweep of this tick's launch: the survivor is in use by then. */
  ghost predicate SoftDue(s: Pool, k: Tick, sid: Sid)
    requires Moving(s, k)
  {
    sid != k.outcome.host && Due(s, k.admission.order, k.admission.at, sid)
  }

  /** The soft budget takes exactly the sessions that are due. */
  lemma SoftTakesExactly(s: Pool, k: Tick, c: Config, sid: Sid)
    requires Moving(s, k) && Under(s, k, c, Soft) && NoRepeats(k.admission.order) && Registered(s, sid)
    ensures sid in Taken(s, k, c) <==> SoftDue(s, k, sid)
  {
    SameRegistered(s, k);
    MarksDue(s, k, sid);
    hide Started, Due, Under, Sound;
    SweepTakesExactly(Started(s, k), k.admission.order, k.admission.at, sid);
  }

  /** Of the marks a migration sets only the survivor's matters to the sweep. */
  lemma MarksDue(s: Pool, k: Tick, sid: Sid)
    requires Moving(s, k) && Registered(s, sid)
    ensures Due(Started(s, k), k.admission.order, k.admission.at, sid) <==> SoftDue(s, k, sid)
  {
    hide Before;
    MarksOnly(s, k);
    hide Started, Sound;
    var started := Started(s, k);
    assert forall x, q: Pid :: Rides(started, x, q) <==> Rides(s, x, q);
  }

  lemma MarksOnly(s: Pool, k: Tick)
    requires Moving(s, k)
    ensures forall x :: Registered(Started(s, k), x) <==> Registered(s, x)
    ensures forall x :: Registered(s, x) ==>
              var o, o' := At(s, x), At(Started(s, k), x);
              && o'.ownsProfile == o.ownsProfile && o'.profile == o.profile
              && o'.expiresAt == o.expiresAt && o'.lastPersist == o.lastPersist && o'.userKey == o.userKey
              && o'.inUse == o.inUse + (if x == k.outcome.host then 1 else 0)
    ensures At(s, k.outcome.host).ownsProfile
  {
    forall x | Registered(s, x) && x != k.outcome.host ensures s.sessions[x] != s.sessions[k.outcome.host] {
      assert At(s, x).sid == x && At(s, k.outcome.host).sid == k.outcome.host;
    }
    assert At(s, k.victim.value).sid == k.victim.value && At(s, k.outcome.host).sid == k.outcome.host;
    hide Sound;
  }

  lemma RegisteredAll(s: Pool, sid: Sid)
    requires Sound(s) && sid in s.sessions
    ensures Registered(s, sid)
  {
  }

  /** The one session a tick without the gate would take out. */
  ghost predicate Removes(s: Pool, k: Tick, c: Config)
    requires Resolved(s, k)
  {
    && Acts(s, k)
    && (if IsUser(At(s, k.victim.value), k.checkedAt) then !k.outcome.Declined? && Poisons(k, c)
        else !HasRider(s, At(s, k.victim.value).profile))
  }

  /** The hard budget finds something to reclaim. */
  ghost predicate Reclaimable(s: Pool, k: Tick)
    requires Moving(s, k)
  {
    exists sid :: Killable(Started(s, k), sid, k.admission.at) || LruCandidate(Started(s, k), sid)
  }

  /** Something else than the session named is due for the sweep of this tick's launch, or there is something for
      the hard budget to reclaim. */
  ghost predicate Disturbed(s: Pool, k: Tick, c: Config)
    requires Resolved(s, k)
  {
    && Migrates(s, k)
    && (|| (Under(s, k, c, Soft) &&
            exists sid :: SoftDue(s, k, sid) && !(sid == k.victim.value && (k.outcome.Arrived? || Poisons(k, c))))
        || (Under(s, k, c, Hard) && Reclaimable(s, k)))
  }

  /** A tick takes out at most the one session named, exactly when its launch's memory gate does not interfere. */
  lemma TickRemovesOne(s: Pool, k: Tick, c: Config)
    requires Possible(s, k, c)
    ensures Resolved(s, k)
    ensures Gone(s, k, c) == (if Removes(s, k, c) then {k.victim.value} else {}) <==> !Disturbed(s, k, c)
  {
    PossibleResolved(s, k, c);
    hide Possible, Taken, HasRider, Under, SoftDue, Reclaimable;
    if Migrates(s, k) {
      MigrationRemovesOne(s, k, c);
    }
  }

  lemma MigrationRemovesOne(s: Pool, k: Tick, c: Config)
    requires Possible(s, k, c) && Migrates(s, k)
    ensures Gone(s, k, c) == (if Poisons(k, c) then {k.victim.value} else {}) <==> !Disturbed(s, k, c)
  {
    DisturbedTakes(s, k, c);
    OnlyOne(Taken(s, k, c), k.victim.value);
    hide Taken, Disturbed, Migrates, Moving, HasRider;
  }

  lemma OnlyOne<T>(taken: set<T>, x: T)
    ensures (taken - {x} == {}) == (taken + {x} == {x}) == (forall y :: y in taken ==> y == x)
  {
    if taken - {x} == {} || taken + {x} == {x} {
      assert forall y :: y in taken ==> y in taken - {x} || y == x;
      assert forall y :: y in taken ==> y in taken + {x};
    }
  }

  lemma DisturbedTakes(s: Pool, k: Tick, c: Config)
    requires Possible(s, k, c) && Migrates(s, k)
    ensures Disturbed(s, k, c) <==>
            if k.outcome.Arrived? || Poisons(k, c) then !(forall x :: x in Taken(s, k, c) ==> x == k.victim.value)
            else Taken(s, k, c) != {}
  {
    TakenByGuards(s, k, c);
    hide Possible, Taken, HasRider, Under, SoftDue, Reclaimable, Sound, IsUser, Resolved;
    if Under(s, k, c, Soft) {
      NotBoth(s, k, c);
      assert forall x :: x in Taken(s, k, c) <==> SoftDue(s, k, x);
    }
  }

  lemma NotBoth(s: Pool, k: Tick, c: Config)
    requires Moving(s, k)
    ensures !(Under(s, k, c, Soft) && Under(s, k, c, Hard))
  {
  }

  /** The gate's takings, by its guards. */
  lemma TakenByGuards(s: Pool, k: Tick, c: Config)
    requires Possible(s, k, c) && Moving(s, k)
    ensures forall sid :: sid in Taken(s, k, c) && Under(s, k, c, Soft) ==> SoftDue(s, k, sid)
    ensures forall sid :: SoftDue(s, k, sid) && Under(s, k, c, Soft) ==> sid in Taken(s, k, c)
    ensures Under(s, k, c, Hard) ==> k.outcome.Unreachable? && (Taken(s, k, c) != {} <==> Reclaimable(s, k))
    ensures !Under(s, k, c, Soft) && !Under(s, k, c, Hard) ==> Taken(s, k, c) == {}
  {
    hide SoftDue, Possible, Taken, Reclaims;
    if Under(s, k, c, Soft) {
      OrderGiven(s, k, c);
      forall sid | Registered(s, sid) ensures sid in Taken(s, k, c) <==> SoftDue(s, k, sid) {
        SoftTakesExactly(s, k, c, sid);
      }
      TakenRegistered(s, k, c);
      DueRegistered(s, k);
    } else if Under(s, k, c, Hard) {
      HardReclaims(s, k, c);
      ReclaimedLeaves(s, k, c);
      ReclaimsSomething(s, k);
    } else {
      NotAsked(s, k, c);
    }
  }

  lemma OrderGiven(s: Pool, k: Tick, c: Config)
    requires Possible(s, k, c) && Moving(s, k) && Under(s, k, c, Soft)
    ensures Lists(s, k.admission.order) && NoRepeats(k.admission.order)
  {
  }

  lemma TakenRegistered(s: Pool, k: Tick, c: Config)
    requires Moving(s, k)
    ensures forall sid :: sid in Taken(s, k, c) ==> Registered(s, sid)
  {
  }

  lemma DueRegistered(s: Pool, k: Tick)
    requires Moving(s, k)
    ensures forall sid :: SoftDue(s, k, sid) ==> Registered(s, sid) && Expired(At(s, sid), k.admission.at)
  {
  }

  lemma ReclaimsSomething(s: Pool, k: Tick)
    requires Moving(s, k) && Reclaims(s, k)
    ensures k.admission.reclaimed.Some? <==> Reclaimable(s, k)
  {
    hide Started, HasRider;
  }

  /** Some session is due for the soft sweep inside this tick's own launch. */
  ghost predicate Sweeps(s: Pool, k: Tick, c: Config)
    requires Resolved(s, k)
  {
    Migrates(s, k) && Under(s, k, c, Soft) && exists sid :: SoftDue(s, k, sid)
  }

  /** The pool shrinks by exactly what is gone; unless the soft budget sweeps inside the tick, by one at most and
      never below the threshold. */
  lemma TickFloor(s: Pool, k: Tick, c: Config)
    requires Possible(s, k, c)
    ensures Resolved(s, k)
    ensures var n, n' := |s.sessions|, |AfterTick(s, k, c).sessions|;
            && n' == n - |Gone(s, k, c)|
            && (!Sweeps(s, k, c) ==> |Gone(s, k, c)| <= 1 && (n' < n ==> KillFloor(k.target) <= n'))
  {
    PossibleResolved(s, k, c);
    TickKeeps(s, k, c);
    var s' := AfterTick(s, k, c);
    GoneRegistered(s, k, c);
    assert |s.sessions.Keys| == |s.sessions| && |s'.sessions.Keys| == |s'.sessions|;
    hide AfterTick, Keeps;
    SizeLess(s.sessions.Keys, Gone(s, k, c));
    if !Sweeps(s, k, c) {
      GoneOne(s, k, c);
    }
  }

  lemma SizeLess<T>(whole: set<T>, part: set<T>)
    requires part <= whole
    ensures |whole - part| == |whole| - |part|
  {
    assert whole == (whole - part) + part;
  }

  lemma GoneRegistered(s: Pool, k: Tick, c: Config)
    requires Resolved(s, k)
    ensures Gone(s, k, c) <= s.sessions.Keys
  {
    hide HasRider, Admitted;
  }

  lemma HardReclaims(s: Pool, k: Tick, c: Config)
    requires Possible(s, k, c) && Moving(s, k) && Under(s, k, c, Hard)
    ensures Reclaims(s, k) && k.outcome.Unreachable?
  {
  }

  lemma GoneOne(s: Pool, k: Tick, c: Config)
    requires Possible(s, k, c) && Resolved(s, k) && !Sweeps(s, k, c)
    ensures |Gone(s, k, c)| <= 1
    ensures Gone(s, k, c) != {} ==> Acts(s, k)
  {
    hide HasRider, Possible, Taken, Under, Reclaims, SoftDue;
    if Migrates(s, k) {
      if Under(s, k, c, Hard) {
        HardReclaims(s, k, c);
        ReclaimedLeaves(s, k, c);
      } else {
        TakenByGuards(s, k, c);
        assert Taken(s, k, c) == {};
      }
    }
  }

  lemma NotAsked(s: Pool, k: Tick, c: Config)
    requires Moving(s, k) && !Under(s, k, c, Soft) && !Under(s, k, c, Hard)
    ensures Taken(s, k, c) == {}
  {
  }

  // ----- the lease ledger -----

  /** The very session a migration then moves, and whose profile it retires, is due for the sweep of its launch. */
  ghost predicate Strands(s: Pool, k: Tick, c: Config)
    requires Resolved(s, k)
  {
    && Migrates(s, k) && k.outcome.Arrived? && At(s, k.victim.value).ownsProfile
    && Under(s, k, c, Soft) && SoftDue(s, k, k.victim.value)
  }

  lemma StrandsTaken(s: Pool, k: Tick, c: Config)
    requires Possible(s, k, c) && Migrates(s, k) && k.outcome.Arrived?
    ensures Strands(s, k, c) <==> k.victim.value in Taken(s, k, c) && At(s, k.victim.value).ownsProfile
  {
    TakenByGuards(s, k, c);
    hide Possible, Taken, Under, SoftDue, HasRider;
  }

  /** A tick keeps the lease ledger exactly when its gate does not sweep the victim of a migration that arrives:
      the commit does not look again, and the retirement would release the profile a second time. */
  lemma TickLedger(s: Pool, k: Tick, c: Config)
    requires Inv(s) && Possible(s, k, c)
    ensures Resolved(s, k)
    ensures Ledger(AfterTick(s, k, c)) <==> !Strands(s, k, c)
    ensures !Strands(s, k, c) ==> Inv(AfterTick(s, k, c))
  {
    PossibleResolved(s, k, c);
    if Acts(s, k) {
      if Migrates(s, k) {
        hide Ledger, Locked, DrainingTracked, HasRider, Inv;
        MigratedLedger(s, k, c);
      } else if !IsUser(At(s, k.victim.value), k.checkedAt) {
        hide Ledger, Locked, DrainingTracked, HasRider;
        if !HasRider(s, At(s, k.victim.value).profile) { KilledLedger(s, k.victim.value); }
      }
    }
  }

  lemma KilledLedger(s: Pool, sid: Sid)
    requires Inv(s) && Registered(s, sid) && !HasRider(s, At(s, sid).profile)
    ensures Inv(Killed(s, sid))
  {
    var v := s.sessions[sid];
    var evicted := Evicted(s, sid);
    EvictKeeps(s, sid);
    var marked := evicted.objects[v].(draining := true);
    UpdateAccounted(evicted, v, marked);
    var s' := SetObject(evicted, v, marked);
    forall x | Registered(s', x) ensures s'.sessions[x] != v {
      assert Registered(s, x) && At(s, x).sid == x;
    }
    DrainingKept(evicted, s');
    assert s' == Killed(s, sid);
  }

  lemma StartedLedger(s: Pool, k: Tick)
    requires Inv(s) && Moving(s, k) && k.t !in s.tasks && At(s, k.victim.value).playerUrl != ""
    ensures Inv(Started(s, k)) && k.t in Started(s, k).tasks
    ensures Started(s, k).tasks[k.t] == Migrating(k.victim.value, s.sessions[k.victim.value], s.sessions[k.outcome.host])
  {
    hide Ledger, Locked, DrainingTracked, HasRider;
    MigrateStartKeeps(s, k.t, k.victim.value, k.outcome.host);
  }

  lemma AdmittedLedger(s: Pool, k: Tick, c: Config)
    requires Moving(s, k) && Inv(Started(s, k))
    ensures Inv(Admitted(s, k, c))
  {
    hide Inv, Started;
    var started := Started(s, k);
    if Under(s, k, c, Soft) {
      SweepKeepsLedger(started, k.admission.order, k.admission.at);
    } else if Under(s, k, c, Hard) && k.admission.reclaimed.Some? && Registered(started, k.admission.reclaimed.value) {
      EvictKeeps(started, k.admission.reclaimed.value);
    }
  }

  lemma MigratedLedger(s: Pool, k: Tick, c: Config)
    requires Inv(s) && Possible(s, k, c) && Migrates(s, k)
    ensures Ledger(Migrated(s, k, c)) <==> !Strands(s, k, c)
    ensures !Strands(s, k, c) ==> Inv(Migrated(s, k, c))
  {
    MovesPage(s, k, c);
    hide Possible, Inv, Ledger, Admitted, Under;
    StartedLedger(s, k);
    AdmittedLedger(s, k, c);
    AdmittedGated(s, k, c);
    var a := Admitted(s, k, c);
    if k.outcome.Arrived? {
      StrandsTaken(s, k, c);
      ArrivedLedger(s, a, k, c);
    } else {
      UnmovedLedger(s, a, k, c);
      InvLedger(Migrated(s, k, c));
    }
  }

  lemma InvLedger(s: Pool)
    requires Inv(s)
    ensures Ledger(s)
  {
  }

  lemma MovesPage(s: Pool, k: Tick, c: Config)
    requires Possible(s, k, c) && Moving(s, k)
    ensures k.t !in s.tasks && At(s, k.victim.value).playerUrl != "" && (k.outcome.Arrived? ==> k.outcome.ref !in s.objects)
  {
  }

  lemma ArrivedLedger(s: Pool, a: Pool, k: Tick, c: Config)
    requires Moving(s, k) && Gated(s, a, k) && Inv(a) && k.outcome.Arrived? && k.t in a.tasks
    requires a.tasks[k.t] == Migrating(k.victim.value, s.sessions[k.victim.value], s.sessions[k.outcome.host])
    ensures var stranded := k.victim.value !in a.sessions && At(s, k.victim.value).ownsProfile;
            (Ledger(Concluded(s, a, k, c)) <==> !stranded) && (!stranded ==> Inv(Concluded(s, a, k, c)))
  {
    hide Ledger, Locked, DrainingTracked, Sound;
    StartedObjects(s, a, k);
    GatedFits(s, a, k);
    MigrateCommitExact(a, k.t, k.outcome.ref, k.outcome.expiresAt, k.outcome.persistedAt);
  }

  lemma GatedFits(s: Pool, a: Pool, k: Tick)
    requires Moving(s, k) && Gated(s, a, k) && k.t in a.tasks
    ensures TaskFits(a, a.tasks[k.t])
  {
  }

  lemma UnmovedLedger(s: Pool, a: Pool, k: Tick, c: Config)
    requires Moving(s, k) && Gated(s, a, k) && Inv(a) && !k.outcome.Arrived? && k.t in a.tasks
    requires a.tasks[k.t] == Migrating(k.victim.value, s.sessions[k.victim.value], s.sessions[k.outcome.host])
    ensures Inv(Concluded(s, a, k, c))
  {
    hide Ledger, Locked, DrainingTracked, HasRider;
    var sid := k.victim.value;
    if Poisons(k, c) && sid in a.sessions {
      assert Registered(a, sid);
      EvictKeeps(a, sid);
      MigrateFailKeeps(Evicted(a, sid), k.t);
    } else {
      MigrateFailKeeps(a, k.t);
    }
  }

  // ----- runs of ticks -----

  ghost predicate TickRun(s: Pool, ks: seq<Tick>, c: Config)
    decreases |ks|
  {
    ks == [] || (Possible(s, ks[0], c) && Resolved(s, ks[0]) && TickRun(AfterTick(s, ks[0], c), ks[1..], c))
  }

  ghost function AfterTicks(s: Pool, ks: seq<Tick>, c: Config): Pool
    requires TickRun(s, ks, c)
    decreases |ks|
  {
    if ks == [] then s else AfterTicks(AfterTick(s, ks[0], c), ks[1..], c)
  }

  /** The memory gate of this tick's launch leaves the stream alone: it is not due for the soft sweep, and the hard
      budget reclaims another. */
  ghost predicate Unclaimed(s: Pool, k: Tick, c: Config, sid: Sid)
    requires Resolved(s, k) && Registered(s, sid)
  {
    Migrates(s, k) ==>
      && (Under(s, k, c, Soft) ==> !SoftDue(s, k, sid))
      && (Under(s, k, c, Hard) ==> k.admission.reclaimed != Some(sid))
  }

  /** A user's stream with a fetch in flight is never what the gate takes. */
  lemma InFlightUnclaimed(s: Pool, k: Tick, c: Config, sid: Sid)
    requires Possible(s, k, c) && Resolved(s, k) && Registered(s, sid) && At(s, sid).inUse > 0 && At(s, sid).userKey != ""
    ensures Unclaimed(s, k, c, sid)
  {
    hide HasRider, Possible, MigrationStarted, Started, Under;
    if Migrates(s, k) && Under(s, k, c, Hard) {
      HardReclaims(s, k, c);
      InFlightMarks(s, k, sid);
    }
  }

  lemma InFlightMarks(s: Pool, k: Tick, sid: Sid)
    requires Moving(s, k) && Registered(s, sid) && At(s, sid).inUse > 0
    ensures Registered(Started(s, k), sid) && At(Started(s, k), sid).inUse > 0 && At(Started(s, k), sid).userKey == At(s, sid).userKey
  {
  }

  /** A tick takes out a user's stream exactly when the gate claims it and it is not the one that arrives elsewhere. */
  lemma UnclaimedStays(s: Pool, k: Tick, c: Config, sid: Sid)
    requires Possible(s, k, c) && Resolved(s, k) && Registered(s, sid)
    requires IsUser(At(s, sid), k.checkedAt) && 2 <= c.poisonMax
    ensures sid in Gone(s, k, c) <==> !Unclaimed(s, k, c, sid) && !(sid == k.victim.value && k.outcome.Arrived?)
  {
    hide HasRider, SoftDue, Possible, Taken, Under, Reclaims;
    if Migrates(s, k) {
      TakenByGuards(s, k, c);
      if Under(s, k, c, Hard) {
        HardReclaims(s, k, c);
        ReclaimedLeaves(s, k, c);
      }
    }
  }

  /** At every tick, the session then registered under `sid` counts as a user's when it is classified, and the
      gate's choice is not it. */
  ghost predicate UserThroughout(s: Pool, ks: seq<Tick>, c: Config, sid: Sid)
    requires TickRun(s, ks, c)
    decreases |ks|
  {
    ks == [] || (Registered(s, sid) && IsUser(At(s, sid), ks[0].checkedAt) && Unclaimed(s, ks[0], c, sid)
                 && UserThroughout(AfterTick(s, ks[0], c), ks[1..], c, sid))
  }

  /** Whatever the migrations answer, user streams survive any number of ticks unchanged, and no draining mark
      is left behind. */
  lemma {:induction false} UserStreamsSurvive(s: Pool, ks: seq<Tick>, c: Config, sid: Sid)
    requires 2 <= c.poisonMax && Registered(s, sid) && TickRun(s, ks, c) && UserThroughout(s, ks, c, sid)
    ensures SameStream(s, AfterTicks(s, ks, c), sid) && (Calm(s) ==> Calm(AfterTicks(s, ks, c)))
    decreases |ks|
  {
    hide Possible, AfterTick, Gone, Unclaimed;
    if ks != [] {
      TickKeeps(s, ks[0], c);
      UnclaimedStays(s, ks[0], c, sid);
      UserStreamsSurvive(AfterTick(s, ks[0], c), ks[1..], c, sid);
    }
  }

  /** No tick's own launch sweeps under the soft budget. */
  ghost predicate NeverSweeps(s: Pool, ks: seq<Tick>, c: Config)
    requires TickRun(s, ks, c)
    decreases |ks|
  {
    ks == [] || (!Sweeps(s, ks[0], c) && NeverSweeps(AfterTick(s, ks[0], c), ks[1..], c))
  }

  /** Then at most one entry disappears per tick, and the pool never falls below the lowest threshold asked for. */
  lemma {:induction false} PoolFloor(s: Pool, ks: seq<Tick>, c: Config, lowest: nat)
    requires TickRun(s, ks, c) && NeverSweeps(s, ks, c)
    requires lowest <= |s.sessions| && forall i :: 0 <= i < |ks| ==> lowest <= KillFloor(ks[i].target)
    ensures var end := AfterTicks(s, ks, c); lowest <= |end.sessions| && |s.sessions| - |ks| <= |end.sessions|
    decreases |ks|
  {
    hide Possible, AfterTick, KillFloor, Sweeps, Gone;
    if ks != [] {
      TickFloor(s, ks[0], c);
      PoolFloor(AfterTick(s, ks[0], c), ks[1..], c, lowest);
    }
  }

  ghost predicate LedgerAtEveryTick(s: Pool, ks: seq<Tick>, c: Config)
    requires TickRun(s, ks, c)
    decreases |ks|
  {
    Ledger(s) && (ks == [] || LedgerAtEveryTick(AfterTick(s, ks[0], c), ks[1..], c))
  }

  ghost predicate NeverStrands(s: Pool, ks: seq<Tick>, c: Config)
    requires TickRun(s, ks, c)
    decreases |ks|
  {
    ks == [] || (!Strands(s, ks[0], c) && NeverStrands(AfterTick(s, ks[0], c), ks[1..], c))
  }

  /** Over any number of ticks the lease ledger holds throughout exactly when no tick's gate sweeps the victim of
      a migration that arrives. */
  lemma {:induction false} TicksKeepLedger(s: Pool, ks: seq<Tick>, c: Config)
    requires Inv(s) && TickRun(s, ks, c)
    ensures LedgerAtEveryTick(s, ks, c) <==> NeverStrands(s, ks, c)
    ensures NeverStrands(s, ks, c) ==> Inv(AfterTicks(s, ks, c))
    decreases |ks|
  {
    InvLedger(s);
    hide Possible, AfterTick, Inv, Ledger, Strands;
    if ks != [] {
      TickLedger(s, ks[0], c);
      if !Strands(s, ks[0], c) {
        TicksKeepLedger(AfterTick(s, ks[0], c), ks[1..], c);
      } else {
        NotThroughout(AfterTick(s, ks[0], c), ks[1..], c);
      }
    }
  }

  lemma NotThroughout(s: Pool, ks: seq<Tick>, c: Config)
    requires TickRun(s, ks, c) && !Ledger(s)
    ensures !LedgerAtEveryTick(s, ks, c)
  {
  }

  // ----- a ttl that spares users -----

  /** A deadline outlives the user window, whatever the slack and whenever in the stretch the clock is read. */
  predicate Ample(c: Config) { USER_WINDOW + c.clock.slack + c.lag <= c.clock.ttl }

  lemma UserNotSoftDue(s: Pool, k: Tick, c: Config, sid: Sid)
    requires Possible(s, k, c) && Moving(s, k) && Deadlines(c.clock, s) && Ample(c)
    requires Registered(s, sid) && IsUser(At(s, sid), k.checkedAt)
    ensures !SoftDue(s, k, sid)
  {
    UserNotDue(c.clock, At(s, sid), k.checkedAt, k.admission.at, c.lag);
  }

  /** A tick keeps every deadline a ttl behind its activity mark. */
  lemma TickDeadlines(s: Pool, k: Tick, c: Config)
    requires Possible(s, k, c) && Resolved(s, k) && Deadlines(c.clock, s)
    ensures Deadlines(c.clock, AfterTick(s, k, c))
  {
    hide HasRider, Admitted, Sound;
    if Acts(s, k) {
      if Migrates(s, k) {
        AdmittedGated(s, k, c);
        ConcludedDeadlines(s, Admitted(s, k, c), k, c);
      } else if !IsUser(At(s, k.victim.value), k.checkedAt) {
        KilledDeadlines(s, k.victim.value, c);
      }
    }
  }

  lemma KilledDeadlines(s: Pool, sid: Sid, c: Config)
    requires Sound(s) && Registered(s, sid) && Deadlines(c.clock, s)
    ensures Deadlines(c.clock, Killed(s, sid))
  {
    hide HasRider;
    assert Outlasts(c.clock, At(s, sid));
  }

  lemma ConcludedDeadlines(s: Pool, a: Pool, k: Tick, c: Config)
    requires Possible(s, k, c) && Moving(s, k) && Gated(s, a, k) && Deadlines(c.clock, s)
    ensures Deadlines(c.clock, Concluded(s, a, k, c))
  {
    hide Possible, MigrationFailed, Started, HasRider, Evicted, MigrationCommitted, Gated, Sound;
    if k.outcome.Arrived? {
      ArrivedDeadlines(s, a, k, c);
    } else {
      var sid := k.victim.value;
      if Poisons(k, c) && sid in a.sessions {
        GatedRegistered(s, a, k);
        MarksTakenBack(s, a, k, Evicted(a, sid));
      } else {
        MarksTakenBack(s, a, k, a);
      }
    }
  }

  lemma ArrivedDeadlines(s: Pool, a: Pool, k: Tick, c: Config)
    requires Possible(s, k, c) && Moving(s, k) && Gated(s, a, k) && Deadlines(c.clock, s) && k.outcome.Arrived?
    ensures Deadlines(c.clock, Concluded(s, a, k, c))
  {
    StartedObjects(s, a, k);
    ArrivesInTime(s, k, c);
    hide Sound, Gated, Possible, HasRider, Evicted;
    assert Outlasts(c.clock, s.objects[s.sessions[k.victim.value]]) && Outlasts(c.clock, s.objects[s.sessions[k.outcome.host]]);
  }

  lemma ArrivesInTime(s: Pool, k: Tick, c: Config)
    requires Possible(s, k, c) && Moving(s, k)
    ensures k.outcome.Arrived? ==> Slid(c.clock, k.outcome.expiresAt, k.outcome.persistedAt)
  {
  }

  /** With an ample ttl no run of ticks strands a lease, and the ledger and the deadlines hold throughout. */
  lemma {:induction false} AmpleTicksKeepLedger(s: Pool, ks: seq<Tick>, c: Config)
    requires Inv(s) && Deadlines(c.clock, s) && Ample(c) && TickRun(s, ks, c)
    ensures NeverStrands(s, ks, c) && LedgerAtEveryTick(s, ks, c)
    ensures Inv(AfterTicks(s, ks, c)) && Deadlines(c.clock, AfterTicks(s, ks, c))
    decreases |ks|
  {
    InvLedger(s);
    hide Possible, AfterTick, Inv, Ledger, Strands, Deadlines;
    if ks != [] {
      AmpleStrandsNothing(s, ks[0], c);
      TickLedger(s, ks[0], c);
      TickDeadlines(s, ks[0], c);
      AmpleTicksKeepLedger(AfterTick(s, ks[0], c), ks[1..], c);
    }
  }

  lemma AmpleStrandsNothing(s: Pool, k: Tick, c: Config)
    requires Possible(s, k, c) && Resolved(s, k) && Deadlines(c.clock, s) && Ample(c)
    ensures !Strands(s, k, c)
  {
    hide Possible, Deadlines, SoftDue, HasRider, Sound;
    if Migrates(s, k) {
      UserNotSoftDue(s, k, c, k.victim.value);
    }
  }

  /** At every tick, the session then registered under `sid` counts as a user's when it is classified, and the hard
      budget reclaims another. */
  ghost predicate HeldThroughout(s: Pool, ks: seq<Tick>, c: Config, sid: Sid)
    requires TickRun(s, ks, c)
    decreases |ks|
  {
    ks == [] || (Registered(s, sid) && IsUser(At(s, sid), ks[0].checkedAt)
                 && (Migrates(s, ks[0]) && Under(s, ks[0], c, Hard) ==> ks[0].admission.reclaimed != Some(sid))
                 && HeldThroughout(AfterTick(s, ks[0], c), ks[1..], c, sid))
  }

  /** With an ample ttl the soft budget is no danger to a user's stream: only the hard one is. */
  lemma {:induction false} AmpleStreamsSurvive(s: Pool, ks: seq<Tick>, c: Config, sid: Sid)
    requires 2 <= c.poisonMax && Registered(s, sid) && TickRun(s, ks, c) && HeldThroughout(s, ks, c, sid)
    requires Deadlines(c.clock, s) && Ample(c)
    ensures SameStream(s, AfterTicks(s, ks, c), sid) && (Calm(s) ==> Calm(AfterTicks(s, ks, c)))
    decreases |ks|
  {
    hide Possible, AfterTick, Gone, Deadlines, SoftDue, Under, HasRider;
    if ks != [] {
      if Migrates(s, ks[0]) {
        UserNotSoftDue(s, ks[0], c, sid);
      }
      TickKeeps(s, ks[0], c);
      UnclaimedStays(s, ks[0], c, sid);
      TickDeadlines(s, ks[0], c);
      AmpleStreamsSurvive(AfterTick(s, ks[0], c), ks[1..], c, sid);
    }
  }

  /** A tick that gets as far as a migration found no service session to take instead. */
  lemma NoServiceLeft(s: Pool, k: Tick, c: Config)
    requires Possible(s, k, c) && Migrates(s, k)
    ensures forall sid :: !ServiceCandidate(s, sid, k.pickedAt)
  {
    hide HasRider;
    assert Candidate(s, k.victim.value, k.pickedAt);
  }

  /** With an ample ttl the soft budget takes, of the sessions not draining, only riders and the hosts of riders;
      none of them counts as a user's. */
  lemma AmpleSoftTakes(s: Pool, k: Tick, c: Config, sid: Sid)
    requires Possible(s, k, c) && Migrates(s, k) && Deadlines(c.clock, s) && Ample(c) && SoftDue(s, k, sid)
    ensures Registered(s, sid) && !IsUser(At(s, sid), k.pickedAt) && !IsUser(At(s, sid), k.checkedAt)
    ensures At(s, sid).draining || HasRider(s, At(s, sid).profile)
  {
    hide HasRider;
    DueRegistered(s, k);
    NoServiceLeft(s, k, c);
    UserNotDue(c.clock, At(s, sid), k.pickedAt, k.admission.at, c.lag);
    UserNotDue(c.clock, At(s, sid), k.checkedAt, k.admission.at, c.lag);
    assert !ServiceCandidate(s, sid, k.pickedAt);
  }

  /** So without riders and draining marks no tick's launch sweeps anything. */
  lemma AmpleSweepsNothing(s: Pool, k: Tick, c: Config)
    requires Possible(s, k, c) && Resolved(s, k) && Deadlines(c.clock, s) && Ample(c)
    requires Calm(s) && forall p: Pid :: !HasRider(s, p)
    ensures !Sweeps(s, k, c)
  {
    hide HasRider, Possible, Deadlines, SoftDue, Under;
    if Sweeps(s, k, c) {
      var sid :| SoftDue(s, k, sid);
      AmpleSoftTakes(s, k, c, sid);
    }
  }

  // ----- how fast a pool without users shrinks -----

  /** Every session owns its browser and is a service session at `now`. */
  ghost predicate ServiceOnly(s: Pool, now: real) {
    && |s.sessions| == |s.sessions.Keys|
    && forall sid :: sid in s.sessions ==>
         Registered(s, sid) && At(s, sid).ownsProfile && !At(s, sid).draining && !IsUser(At(s, sid), now)
  }

  lemma ServiceTick(s: Pool, k: Tick, c: Config)
    requires Possible(s, k, c) && ServiceOnly(s, k.pickedAt)
    ensures Resolved(s, k)
    ensures var s' := AfterTick(s, k, c);
            |s'.sessions| == (if KillFloor(k.target) < |s.sessions| then |s.sessions| - 1 else |s.sessions|)
            && forall later: real :: ServiceOnly(s, later) ==> ServiceOnly(s', later)
  {
    PossibleResolved(s, k, c);
    NobodyRides(s, k.pickedAt);
    TickFloor(s, k, c);
    if KillFloor(k.target) < |s.sessions| {
      SomeCandidate(s, k.pickedAt);
      ServiceKilled(s, k, c);
    }
  }

  lemma NobodyRides(s: Pool, now: real)
    requires ServiceOnly(s, now)
    ensures forall p: Pid :: !HasRider(s, p)
  {
  }

  lemma SomeCandidate(s: Pool, now: real)
    requires ServiceOnly(s, now) && 0 < |s.sessions| && forall p: Pid :: !HasRider(s, p)
    ensures exists sid :: Candidate(s, sid, now)
    ensures forall sid :: Candidate(s, sid, now) ==> ServiceCandidate(s, sid, now)
  {
    var sid :| sid in s.sessions.Keys;
    assert ServiceCandidate(s, sid, now);
    assert Candidate(s, sid, now);
  }

  lemma ServiceKilled(s: Pool, k: Tick, c: Config)
    requires Resolved(s, k) && Acts(s, k) && ServiceOnly(s, k.pickedAt) && k.pickedAt <= k.checkedAt
    requires forall p: Pid :: !HasRider(s, p)
    ensures Removes(s, k, c)
    ensures forall later: real :: ServiceOnly(s, later) ==> ServiceOnly(AfterTick(s, k, c), later)
  {
  }

  /** A pool of service sessions only reaches the threshold in exactly (size - threshold) ticks. */
  lemma {:induction false} ServicePoolShrinks(s: Pool, ks: seq<Tick>, c: Config, target: nat)
    requires TickRun(s, ks, c) && KillFloor(target) <= |s.sessions|
    requires forall i :: 0 <= i < |ks| ==> ks[i].target == target && ServiceOnly(s, ks[i].pickedAt)
    ensures var n, left := |s.sessions|, |AfterTicks(s, ks, c).sessions|;
            left == (if |ks| <= n - KillFloor(target) then n - |ks| else KillFloor(target))
    decreases |ks|
  {
    hide Possible, AfterTick, ServiceOnly, KillFloor;
    if ks != [] {
      ServiceTick(s, ks[0], c);
      ServicePoolShrinks(AfterTick(s, ks[0], c), ks[1..], c, target);
    }
  }

  // ----- one tick over the fields -----

  /** What the memory gate is asked for, and with which pressure. */
  lemma GateReads(s: Pool, k: Tick, c: Config)
    requires Moving(s, k)
    ensures var host := s.objects[s.sessions[k.outcome.host]];
            var asked := !k.admission.sameExit || !s.profiles[host.profile].launched;
            && (Under(s, k, c, Soft) <==> asked && c.softBudget <= k.admission.ram < c.hardBudget)
            && (Under(s, k, c, Hard) <==> asked && c.hardBudget <= k.admission.ram)
  {
  }

  /** The browser a stream is moved to: another session's own, not draining; one that serves a user if there is any,
      and of those the one that expires last. */
  lemma HostReads(s: Pool, k: Tick, c: Config)
    requires Possible(s, k, c) && Moving(s, k)
    ensures var h := k.outcome.host;
            && h != k.victim.value && h in s.sessions && s.sessions[h] in s.objects
            && s.objects[s.sessions[h]].ownsProfile && !s.objects[s.sessions[h]].draining
            && forall x :: x != k.victim.value && x in s.sessions && s.sessions[x] in s.objects
                           && s.objects[s.sessions[x]].ownsProfile && !s.objects[s.sessions[x]].draining ==>
                 var o, p := s.objects[s.sessions[h]], s.objects[s.sessions[x]];
                 var first := o.userKey != "" && (o.inUse > 0 || k.checkedAt - o.lastPersist < 180.0);
                 var other := p.userKey != "" && (p.inUse > 0 || k.checkedAt - p.lastPersist < 180.0);
                 (other ==> first) && (other == first ==> p.expiresAt <= o.expiresAt)
  {
    hide Reclaims, Under, HasRider, Picked;
    assert Preferred(s, k.victim.value, k.outcome.host, k.checkedAt);
    forall x | x != k.victim.value && Registered(s, x) && At(s, x).ownsProfile && !At(s, x).draining
      ensures Survivor(s, k.victim.value, x)
    {
    }
  }

  /** No more sessions than ceil(target / 2) + 1, or nobody to take: nothing happens. */
  lemma TickRests(s: Pool, k: Tick, c: Config)
    requires Resolved(s, k) && (2 * (|s.sessions| - 2) < k.target || k.victim.None?)
    ensures AfterTick(s, k, c) == s
  {
    hide Admitted, Killed;
  }

  /** Otherwise a victim that is no user's when it is classified is killed, unless a rider shares its browser. */
  lemma TickKills(s: Pool, k: Tick, c: Config)
    requires Resolved(s, k) && 2 * (|s.sessions| - 2) >= k.target && k.victim.Some?
    requires var o := s.objects[s.sessions[k.victim.value]];
             o.userKey == "" || (o.inUse == 0 && k.checkedAt - o.lastPersist >= 180.0)
    ensures var o, s' := s.objects[s.sessions[k.victim.value]], AfterTick(s, k, c);
            if exists r :: r in s.sessions && s.sessions[r] in s.objects
                           && !s.objects[s.sessions[r]].ownsProfile && s.objects[s.sessions[r]].profile == o.profile
            then s' == s
            else s'.sessions == s.sessions - {k.victim.value} && |s'.profiles| == |s.profiles|
                 && forall p :: 0 <= p < |s.profiles| ==>
                      s'.profiles[p].leased == (s.profiles[p].leased && !(o.ownsProfile && p == o.profile))
  {
    hide Admitted;
    var o := s.objects[s.sessions[k.victim.value]];
    assert HasRider(s, o.profile) <==> exists r :: r in s.sessions && s.sessions[r] in s.objects
                                         && !s.objects[s.sessions[r]].ownsProfile && s.objects[s.sessions[r]].profile == o.profile by {
      RiderReads(s, o.profile);
    }
    hide HasRider;
  }

  lemma RiderReads(s: Pool, p: Pid)
    ensures HasRider(s, p) <==> exists r :: r in s.sessions && s.sessions[r] in s.objects
                                            && !s.objects[s.sessions[r]].ownsProfile && s.objects[s.sessions[r]].profile == p
  {
    if r :| r in s.sessions && s.sessions[r] in s.objects
            && !s.objects[s.sessions[r]].ownsProfile && s.objects[s.sessions[r]].profile == p
    {
      assert r in s.sessions.Keys && Registered(s, r);
    }
  }

  /** A user's stream is moved: it keeps its id, its addresses and its user, rides the host's browser, and owns none.
      When that fails it stays as it was, unless one page crash is too many. */
  lemma TickMoves(s: Pool, k: Tick, c: Config)
    requires Possible(s, k, c) && Resolved(s, k) && 2 * (|s.sessions| - 2) >= k.target && k.victim.Some?
    requires var o := s.objects[s.sessions[k.victim.value]];
             o.userKey != "" && (o.inUse > 0 || k.checkedAt - o.lastPersist < 180.0)
    requires !k.outcome.Declined? ==> k.admission.sameExit && s.profiles[s.objects[s.sessions[k.outcome.host]].profile].launched
    ensures var v, o, s' := k.victim.value, s.objects[s.sessions[k.victim.value]], AfterTick(s, k, c);
            match k.outcome
            case Declined => s' == s
            case Arrived(host, ref, expiresAt, persistedAt) =>
              && s'.sessions == s.sessions[v := ref] && s'.profiles == s.profiles && ref in s'.objects
              && s'.objects[ref] == Session(v, s.objects[s.sessions[host]].profile, expiresAt, 0, o.userKey,
                                            false, false, persistedAt, o.masterUrl, o.playerUrl)
            case _ =>
              s'.objects == s.objects
              && (if k.outcome.PageClosed? && c.poisonMax <= 1 then s'.sessions == s.sessions - {v}
                  else s'.sessions == s.sessions && s'.profiles == s.profiles)
  {
    hide Possible, HasRider;
    if !k.outcome.Declined? {
      assert Admitted(s, k, c) == Started(s, k);
      AdmittedGated(s, k, c);
      if k.outcome.Arrived? {
        ArrivedReads(s, k, c);
      } else {
        FailedReads(s, k, c);
      }
    }
  }

  lemma ArrivedReads(s: Pool, k: Tick, c: Config)
    requires Moving(s, k) && k.outcome.Arrived? && Gated(s, Started(s, k), k)
    ensures var v, o, s' := k.victim.value, s.objects[s.sessions[k.victim.value]], Concluded(s, Started(s, k), k, c);
            && s'.sessions == s.sessions[v := k.outcome.ref] && s'.profiles == s.profiles && k.outcome.ref in s'.objects
            && s'.objects[k.outcome.ref]
               == Session(v, s.objects[s.sessions[k.outcome.host]].profile, k.outcome.expiresAt, 0, o.userKey,
                          false, false, k.outcome.persistedAt, o.masterUrl, o.playerUrl)
  {
    StartedObjects(s, Started(s, k), k);
    hide HasRider, Sound;
  }

  lemma FailedReads(s: Pool, k: Tick, c: Config)
    requires Moving(s, k) && !k.outcome.Arrived? && Gated(s, Started(s, k), k)
    ensures var v, s' := k.victim.value, Concluded(s, Started(s, k), k, c);
            s'.objects == s.objects
            && (if k.outcome.PageClosed? && c.poisonMax <= 1 then s'.sessions == s.sessions - {v}
                else s'.sessions == s.sessions && s'.profiles == s.profiles)
  {
    var a := Started(s, k);
    if Poisons(k, c) {
      GatedRegistered(s, a, k);
      MarksTakenBack(s, a, k, Evicted(a, k.victim.value));
    } else {
      MarksTakenBack(s, a, k, a);
    }
    hide HasRider, Sound;
  }
}
