/** Deadlines and activity marks (services/stealth-scraper/app/engine.py): every write of `expires_at` and
    `last_persist`, and what follows for streams that count as a user's.

    The pool machine's actions take any deadline; here each action happens at a moment, and what it writes is what
    the engine writes at that moment. */
module SessionClock {
  import opened Optional
  import opened BrowserPool
  import opened LeaseLedger

  /** `slack` bounds how long after a deadline is computed the activity mark may still be set: the verifying fetch
      of a rehydration or a migration, or the rest of one stretch of code. */
  datatype Clock = Clock(ttl: real, grace: real, slack: real)

  predicate Fits(c: Clock) { 0.0 <= c.ttl && 0.0 <= c.grace && 0.0 <= c.slack }

  /** A deadline of a full ttl, computed at most `slack` ago. */
  predicate Slid(c: Clock, expiresAt: real, now: real) { now - c.slack <= expiresAt - c.ttl <= now }

  /** What the engine writes at `now`. */
  predicate Writes(s: Pool, a: Action, now: real, c: Clock)
    requires Sound(s) && Enabled(s, a)
  {
    match a
    case Open(t, ref, o, _) =>
      (match s.tasks[t].job
       case ResolveJob(_) => o.lastPersist == 0.0 && o.expiresAt == now + c.grace
       case WarmJob(_) => o.lastPersist == 0.0 && Slid(c, o.expiresAt, now)
       case RehydrateJob(_) => o.lastPersist == now && Slid(c, o.expiresAt, now))
    case Touch(ref, _, expiresAt, lastPersist) =>
      var o := s.objects[ref];
      || (expiresAt == o.expiresAt && lastPersist == o.lastPersist)    // a fetch starts or ends,
      || (Slid(c, expiresAt, now) && lastPersist == o.lastPersist)     // slides the deadline,
      || (Slid(c, expiresAt, now) && lastPersist == now)               // and refreshes the record
    case MigrateCommit(_, _, expiresAt, persistedAt) => Slid(c, expiresAt, now) && persistedAt == now
    case SweepExpired(_, at) => at == now
    case ForceKill(_, at) => at == now
    case ReapStart(_, at, _) => at == now
    case _ => true
  }

  datatype Moment = Moment(pool: Pool, at: real)

  /** `a` leads from one moment to a later one. */
  predicate Leads(c: Clock, m: Moment, a: Action, m': Moment) {
    m.at <= m'.at && Sound(m.pool) && Enabled(m.pool, a) && Writes(m.pool, a, m'.at, c) && m'.pool == Apply(m.pool, a)
  }

  /** Met after `n` actions from a fresh pool, started no earlier than a ttl after the clock's zero. */
  ghost predicate ReachedIn(n: nat, c: Clock, m: Moment) {
    if n == 0 then Initial(m.pool) && c.ttl <= m.at
    else exists m0, a :: Leads(c, m0, a, m) && ReachedIn(n - 1, c, m0)
  }

  /** Some run leads to this pool, and then nothing happens until the moment. */
  ghost predicate Reached(c: Clock, m: Moment) {
    exists n: nat, m0 :: ReachedIn(n, c, m0) && m0.pool == m.pool && m0.at <= m.at
  }

  // ----- what the writes keep -----

  /** The deadline lies a ttl behind the last activity mark, less the slack. */
  predicate Outlasts(c: Clock, o: Session) { o.lastPersist + c.ttl <= o.expiresAt + c.slack }

  ghost predicate Deadlines(c: Clock, s: Pool) { forall r :: r in s.objects ==> Outlasts(c, s.objects[r]) }

  ghost predicate OnClock(c: Clock, m: Moment) {
    && c.ttl <= m.at && Deadlines(c, m.pool)
    && (forall r :: r in m.pool.objects ==> m.pool.objects[r].lastPersist <= m.at)
    && (forall t :: t in m.pool.tasks && m.pool.tasks[t].Reaping? ==> m.pool.tasks[t].now <= m.at)
  }

  /** The objects an action writes to. */
  ghost predicate Written(s: Pool, a: Action, s': Pool, r: Ref)
    requires r in s'.objects
  {
    var o := s'.objects[r];
    || (a.Open? && r == a.ref && o == a.session)
    || (a.MigrateCommit? && r == a.ref && o.expiresAt == a.expiresAt && o.lastPersist == a.persistedAt)
    || (a.Touch? && r == a.ref && r in s.objects && o.expiresAt == a.expiresAt && o.lastPersist == a.lastPersist)
    || (r in s.objects && o.expiresAt == s.objects[r].expiresAt && o.lastPersist == s.objects[r].lastPersist)
  }

  lemma WrittenObjects(s: Pool, a: Action, r: Ref)
    requires Sound(s) && Enabled(s, a) && r in Apply(s, a).objects
    ensures Written(s, a, Apply(s, a), r)
  {
    ApplySplits(s, a);
    hide Sound, Enabled, Apply, Written;
    if OfRequest(a) {
      RequestWrites(s, a, r);
    } else if OfMigration(a) {
      MigrationWrites(s, a, r);
    } else {
      RemovalWrites(s, a, r);
    }
  }

  lemma RequestWrites(s: Pool, a: Action, r: Ref)
    requires Sound(s) && Enabled(s, a) && OfRequest(a) && r in ApplyRequest(s, a).objects
    ensures Written(s, a, ApplyRequest(s, a), r)
  {
    hide Sound, TaskFits, HasRider, LockFree, FreshSid;
  }

  lemma MigrationWrites(s: Pool, a: Action, r: Ref)
    requires Sound(s) && Enabled(s, a) && OfMigration(a) && r in ApplyMigration(s, a).objects
    ensures Written(s, a, ApplyMigration(s, a), r)
  {
    hide HasRider;
    if a.MigrateFail? || a.MigrateCommit? {
      assert TaskFits(s, s.tasks[a.t]);
    }
    hide Sound;
  }

  lemma RemovalWrites(s: Pool, a: Action, r: Ref)
    requires Sound(s) && Enabled(s, a) && !OfRequest(a) && !OfMigration(a) && r in ApplyRemoval(s, a).objects
    ensures Written(s, a, ApplyRemoval(s, a), r)
  {
    hide Sound, TaskFits, HasRider, IsItems, LruCandidate;
  }

  lemma ReapingSince(s: Pool, a: Action, t: Tid)
    requires Sound(s) && Enabled(s, a) && t in Apply(s, a).tasks && Apply(s, a).tasks[t].Reaping?
    ensures var now := Apply(s, a).tasks[t].now;
            (a.ReapStart? && now == a.now) || (t in s.tasks && s.tasks[t].Reaping? && now == s.tasks[t].now)
  {
    hide Sound, TaskFits, HasRider, IsItems, LockFree, LruCandidate, FreshSid;
    if OfRequest(a) {
      hide ApplyMigration, ApplyRemoval;
    } else if OfMigration(a) {
      hide ApplyRequest, ApplyRemoval;
    } else {
      hide ApplyRequest, ApplyMigration;
    }
  }

  /** Whatever is written at a moment keeps the bounds at that moment. */
  lemma WrittenInTime(c: Clock, m: Moment, a: Action, now: real, o: Session, r: Ref)
    requires Fits(c) && OnClock(c, m) && m.at <= now && Sound(m.pool) && Enabled(m.pool, a) && Writes(m.pool, a, now, c)
    requires || (a.Open? && o == a.session)
             || (a.MigrateCommit? && o.expiresAt == a.expiresAt && o.lastPersist == a.persistedAt)
             || (a.Touch? && r == a.ref && o.expiresAt == a.expiresAt && o.lastPersist == a.lastPersist)
    ensures Outlasts(c, o) && o.lastPersist <= now
  {
    hide Sound;
    if a.Touch? {
      assert Outlasts(c, m.pool.objects[r]) && m.pool.objects[r].lastPersist <= m.at;
    }
  }

  lemma ClockStep(c: Clock, m: Moment, a: Action, m': Moment)
    requires Fits(c) && OnClock(c, m) && Leads(c, m, a, m')
    ensures OnClock(c, m')
  {
    hide Sound, Enabled, Apply, Writes;
    forall r | r in m'.pool.objects ensures Outlasts(c, m'.pool.objects[r]) && m'.pool.objects[r].lastPersist <= m'.at {
      var o := m'.pool.objects[r];
      WrittenObjects(m.pool, a, r);
      if r in m.pool.objects && o.expiresAt == m.pool.objects[r].expiresAt && o.lastPersist == m.pool.objects[r].lastPersist {
        assert Outlasts(c, m.pool.objects[r]);
      } else {
        WrittenInTime(c, m, a, m'.at, o, r);
      }
    }
    forall t | t in m'.pool.tasks && m'.pool.tasks[t].Reaping? ensures m'.pool.tasks[t].now <= m'.at {
      ReapingSince(m.pool, a, t);
      ReapStartNow(m, a, m', c);
    }
  }

  lemma ReapStartNow(m: Moment, a: Action, m': Moment, c: Clock)
    requires Leads(c, m, a, m')
    ensures a.ReapStart? ==> a.now == m'.at
  {
  }

  /** Over every run, in every interleaving. */
  lemma {:induction false} ReachedOnClock(n: nat, c: Clock, m: Moment)
    requires Fits(c) && ReachedIn(n, c, m)
    ensures OnClock(c, m)
    decreases n
  {
    hide Leads;
    if n > 0 {
      var m0, a :| Leads(c, m0, a, m) && ReachedIn(n - 1, c, m0);
      ReachedOnClock(n - 1, c, m0);
      ClockStep(c, m0, a, m);
    }
  }

  lemma ReachedBounds(c: Clock, m: Moment)
    requires Fits(c) && Reached(c, m)
    ensures OnClock(c, m)
  {
    var n: nat, m0 :| ReachedIn(n, c, m0) && m0.pool == m.pool && m0.at <= m.at;
    ReachedOnClock(n, c, m0);
  }

  // ----- users' streams are not due -----

  /** Whoever counts as a user's at one moment has not expired at another, at most `lag` later. */
  lemma UserNotDue(c: Clock, o: Session, seen: real, now: real, lag: real)
    requires Outlasts(c, o) && now <= seen + lag && USER_WINDOW + c.slack + lag <= c.ttl
    ensures IsUser(o, seen) ==> !Expired(o, now)
  {
  }

  /** Past its deadline and idle, while its last activity is recent enough to count as a user's. */
  ghost predicate UserDue(m: Moment, sid: Sid) {
    && sid in m.pool.sessions && m.pool.sessions[sid] in m.pool.objects
    && var o := m.pool.objects[m.pool.sessions[sid]];
       o.userKey != "" && o.inUse == 0 && m.at - o.lastPersist < 180.0 && o.expiresAt <= m.at
  }

  /** A stream that counts as a user's can be past its deadline exactly if the ttl is shorter than the user window
      and the slack together. */
  lemma UsersDueIff(c: Clock)
    requires Fits(c)
    ensures (exists m, sid :: Reached(c, m) && UserDue(m, sid)) <==> c.ttl < 180.0 + c.slack
  {
    if c.ttl < USER_WINDOW + c.slack {
      ShortTtlDue(c);
    } else {
      forall m, sid | Reached(c, m) && Registered(m.pool, sid) ensures !UserDue(m, sid) {
        UserSafe(c, m, sid);
      }
    }
  }

  lemma UserSafe(c: Clock, m: Moment, sid: Sid)
    requires Fits(c) && Reached(c, m) && USER_WINDOW + c.slack <= c.ttl
    ensures !UserDue(m, sid)
  {
    hide Reached;
    ReachedBounds(c, m);
    if Registered(m.pool, sid) {
      UserNotDue(c, At(m.pool, sid), m.at, m.at, 0.0);
    }
  }

  /** Then no sweep and no reaper pass takes a user's stream, however late the pass gets to it. */
  lemma SweepsSpareUsers(c: Clock, m: Moment, a: Action)
    requires Fits(c) && Reached(c, m) && USER_WINDOW + c.slack <= c.ttl && Sound(m.pool) && Enabled(m.pool, a)
    ensures a.SweepExpired? && a.now == m.at ==> !IsUser(At(m.pool, a.sid), m.at)
    ensures a.ReapNext? ==>
              var r := m.pool.tasks[a.t].rest[0].1;
              r in m.pool.objects && (Sweepable(m.pool, r, m.pool.tasks[a.t].now) ==> !IsUser(m.pool.objects[r], m.at))
  {
    hide Reached, HasRider;
    ReachedBounds(c, m);
    if a.SweepExpired? {
      UserNotDue(c, At(m.pool, a.sid), m.at, m.at, 0.0);
    }
    if a.ReapNext? {
      assert TaskFits(m.pool, m.pool.tasks[a.t]);
      var r := m.pool.tasks[a.t].rest[0].1;
      UserNotDue(c, m.pool.objects[r], m.at, m.pool.tasks[a.t].now, 0.0);
    }
  }

  // ----- runs, a request at a time -----

  lemma ReachOn(c: Clock, m: Moment, a: Action, m': Moment)
    requires Reached(c, m) && Leads(c, m, a, m')
    ensures Reached(c, m')
  {
    hide Sound, Enabled, Apply, Writes;
    var n: nat, m0 :| ReachedIn(n, c, m0) && m0.pool == m.pool && m0.at <= m.at;
    assert Leads(c, m0, a, m');
    assert ReachedIn(n + 1, c, m');
  }

  lemma Waits(c: Clock, m: Moment, at: real)
    requires Reached(c, m) && m.at <= at
    ensures Reached(c, Moment(m.pool, at))
  {
  }

  /** A pool in which no coroutine is at work. */
  ghost predicate Quiet(s: Pool) { Sound(s) && s.tasks == map[] }

  function Rehydrated(s: Pool, p: Pid, ref: Ref, o: Session): Pool
    requires p < |s.profiles|
  {
    s.(profiles := s.profiles[p := s.profiles[p].(leased := true)], objects := s.objects[ref := o], sessions := s.sessions[o.sid := ref])
  }

  /** A rehydration, from its lease to its answer. */
  lemma RehydrateReaches(c: Clock, m: Moment, p: Pid, ref: Ref, o: Session, at: real)
    requires Reached(c, m) && Quiet(m.pool) && m.at <= at
    requires p < |m.pool.profiles| && !m.pool.profiles[p].leased && m.pool.profiles[p].status == Healthy
    requires o.sid.Hex? && o.sid !in m.pool.sessions && ref !in m.pool.objects
    requires o.profile == p && o.ownsProfile && !o.draining && o.inUse == 0 && o.lastPersist == at && Slid(c, o.expiresAt, at)
    ensures Quiet(Rehydrated(m.pool, p, ref, o)) && Reached(c, Moment(Rehydrated(m.pool, p, ref, o), at))
  {
    hide Reached;
    var s, job := m.pool, RehydrateJob(o.sid.n);
    var s1 := SetTask(s, 0, Work(job, Queued));
    var s2 := SetTask(s, 0, Work(job, Seeking));
    var leased := s.(profiles := s.profiles[p := s.profiles[p].(leased := true)]);
    var s3 := SetTask(leased, 0, Work(job, Holding(p)));
    StartLeads(c, m, job, at);
    ReachOn(c, m, Start(0, job), Moment(s1, at));
    EnterLeads(c, s, o.sid.n, at);
    ReachOn(c, Moment(s1, at), Enter(0), Moment(s2, at));
    AcquireLeads(c, s, job, p, at);
    ReachOn(c, Moment(s2, at), Acquire(0, p), Moment(s3, at));
    OpenLeads(c, leased, job, p, ref, o, at);
    ReachOn(c, Moment(s3, at), Open(0, ref, o, true), Moment(Rehydrated(s, p, ref, o), at));
  }

  lemma StartLeads(c: Clock, m: Moment, job: Job, at: real)
    requires Quiet(m.pool) && m.at <= at && !job.ResolveJob?
    ensures Leads(c, m, Start(0, job), Moment(SetTask(m.pool, 0, Work(job, Queued)), at))
  {
    hide Sound, ApplyMigration, ApplyRemoval;
  }

  lemma EnterLeads(c: Clock, s: Pool, n: nat, at: real)
    requires Quiet(s) && Hex(n) !in s.sessions
    ensures var job := RehydrateJob(n);
            Leads(c, Moment(SetTask(s, 0, Work(job, Queued)), at), Enter(0), Moment(SetTask(s, 0, Work(job, Seeking)), at))
  {
    hide ApplyMigration, ApplyRemoval;
    var job := RehydrateJob(n);
    TaskSound(s, 0, Work(job, Queued));
    hide Sound;
    assert SetTask(SetTask(s, 0, Work(job, Queued)), 0, Work(job, Seeking)) == SetTask(s, 0, Work(job, Seeking));
  }

  lemma AcquireLeads(c: Clock, s: Pool, job: Job, p: Pid, at: real)
    requires Quiet(s) && p < |s.profiles| && !s.profiles[p].leased && s.profiles[p].status == Healthy
    ensures var leased := s.(profiles := s.profiles[p := s.profiles[p].(leased := true)]);
            Leads(c, Moment(SetTask(s, 0, Work(job, Seeking)), at), Acquire(0, p), Moment(SetTask(leased, 0, Work(job, Holding(p))), at))
  {
    hide ApplyMigration, ApplyRemoval;
    TaskSound(s, 0, Work(job, Seeking));
    hide Sound;
    var leased := s.(profiles := s.profiles[p := s.profiles[p].(leased := true)]);
    assert Leased(SetTask(s, 0, Work(job, Seeking)), 0, job, p) == SetTask(leased, 0, Work(job, Holding(p)));
  }

  lemma OpenLeads(c: Clock, s: Pool, job: Job, p: Pid, ref: Ref, o: Session, at: real)
    requires Quiet(s) && p < |s.profiles| && o.sid.Hex? && job == RehydrateJob(o.sid.n) && ref !in s.objects
    requires o.profile == p && o.ownsProfile && !o.draining && o.inUse == 0 && o.lastPersist == at && Slid(c, o.expiresAt, at)
    ensures Leads(c, Moment(SetTask(s, 0, Work(job, Holding(p))), at), Open(0, ref, o, true), Moment(Listed(s, ref, o), at))
    ensures Quiet(Listed(s, ref, o))
  {
    hide ApplyMigration, ApplyRemoval;
    TaskSound(s, 0, Work(job, Holding(p)));
    ObjectSound(s, ref, o);
    RegisterSound(SetObject(s, ref, o), o.sid, ref);
    hide Sound;
    var held := SetTask(s, 0, Work(job, Holding(p)));
    assert EndTask(Listed(held, ref, o), 0) == Listed(s, ref, o);
  }

  /** A stream moved to another session's browser, its own one retired. */
  function MovedTo(s: Pool, sid: Sid, host: Sid, ref: Ref, expiresAt: real, at: real): Pool
    requires Registered(s, sid) && Registered(s, host) && At(s, sid).profile < |s.profiles| && ref !in s.objects
  {
    var v := s.sessions[sid];
    var victim := s.objects[v].(draining := true);
    ReleaseIfOwned(s.(objects := s.objects[v := victim][ref := Moved(victim, At(s, host), expiresAt, at)], sessions := s.sessions[sid := ref]), v)
  }

  lemma MoveReaches(c: Clock, m: Moment, sid: Sid, host: Sid, ref: Ref, expiresAt: real, at: real)
    requires Reached(c, m) && Quiet(m.pool) && m.at <= at && Slid(c, expiresAt, at)
    requires Registered(m.pool, sid) && !At(m.pool, sid).draining && At(m.pool, sid).playerUrl != ""
    requires host != sid && CanHost(m.pool, host) && ref !in m.pool.objects
    ensures At(m.pool, sid).profile < |m.pool.profiles|
    ensures Quiet(MovedTo(m.pool, sid, host, ref, expiresAt, at)) && Reached(c, Moment(MovedTo(m.pool, sid, host, ref, expiresAt, at), at))
  {
    hide Reached;
    var s := m.pool;
    var v, h := s.sessions[sid], s.sessions[host];
    HostElsewhere(s, sid, host);
    var s1 := MigrationStarted(s, 0, sid, v, h);
    MigrationStartedSound(s, 0, sid, host);
    MoveStarts(c, m, sid, host, at);
    ReachOn(c, m, MigrateStart(0, sid, host), Moment(s1, at));
    var moved := Moved(s1.objects[v], s1.objects[h], expiresAt, at);
    var s2 := MigrationCommitted(s1, 0, sid, v, h, ref, moved);
    MoveCommits(c, s1, sid, v, h, ref, expiresAt, at);
    ReachOn(c, Moment(s1, at), MigrateCommit(0, ref, expiresAt, at), Moment(s2, at));
    var s3 := EndTask(ReleaseIfOwned(s2, v), 0);
    MoveRetires(c, s2, v, at);
    ReachOn(c, Moment(s2, at), RetireDone(0), Moment(s3, at));
    MovedWhole(s, sid, host, ref, expiresAt, at);
  }

  lemma HostElsewhere(s: Pool, sid: Sid, host: Sid)
    requires Sound(s) && Registered(s, sid) && Registered(s, host) && host != sid
    ensures s.sessions[sid] != s.sessions[host] && At(s, sid).profile < |s.profiles|
  {
    assert At(s, sid).sid == sid && At(s, host).sid == host;
  }

  lemma MoveStarts(c: Clock, m: Moment, sid: Sid, host: Sid, at: real)
    requires Quiet(m.pool) && m.at <= at
    requires Registered(m.pool, sid) && !At(m.pool, sid).draining && At(m.pool, sid).playerUrl != "" && host != sid && CanHost(m.pool, host)
    ensures Leads(c, m, MigrateStart(0, sid, host),
                  Moment(MigrationStarted(m.pool, 0, sid, m.pool.sessions[sid], m.pool.sessions[host]), at))
  {
    hide Sound, ApplyRequest, ApplyRemoval;
  }

  lemma MoveCommits(c: Clock, s: Pool, sid: Sid, v: Ref, h: Ref, ref: Ref, expiresAt: real, at: real)
    requires Sound(s) && s.tasks == map[0 := Migrating(sid, v, h)] && v in s.objects && h in s.objects && ref !in s.objects
    requires Slid(c, expiresAt, at)
    ensures var s' := MigrationCommitted(s, 0, sid, v, h, ref, Moved(s.objects[v], s.objects[h], expiresAt, at));
            Sound(s') && Leads(c, Moment(s, at), MigrateCommit(0, ref, expiresAt, at), Moment(s', at))
  {
    StepSound(s, MigrateCommit(0, ref, expiresAt, at));
    hide Sound, ApplyRequest, ApplyRemoval;
  }

  lemma MoveRetires(c: Clock, s: Pool, v: Ref, at: real)
    requires Sound(s) && s.tasks == map[0 := Retiring(v)] && v in s.objects && s.objects[v].profile < |s.profiles|
    ensures var s' := EndTask(ReleaseIfOwned(s, v), 0);
            Sound(s') && Leads(c, Moment(s, at), RetireDone(0), Moment(s', at))
  {
    StepSound(s, RetireDone(0));
    hide Sound, ApplyRequest, ApplyRemoval;
  }

  lemma MovedWhole(s: Pool, sid: Sid, host: Sid, ref: Ref, expiresAt: real, at: real)
    requires Quiet(s) && Registered(s, sid) && Registered(s, host) && s.sessions[sid] != s.sessions[host]
    requires ref !in s.objects && At(s, sid).profile < |s.profiles|
    ensures var v, h := s.sessions[sid], s.sessions[host];
            var s1 := MigrationStarted(s, 0, sid, v, h);
            var s2 := MigrationCommitted(s1, 0, sid, v, h, ref, Moved(s1.objects[v], s1.objects[h], expiresAt, at));
            v in s2.objects && EndTask(ReleaseIfOwned(s2, v), 0) == MovedTo(s, sid, host, ref, expiresAt, at)
  {
    hide Sound;
    var v, h := s.sessions[sid], s.sessions[host];
    var s1 := MigrationStarted(s, 0, sid, v, h);
    var moved := Moved(s1.objects[v], s1.objects[h], expiresAt, at);
    var s2 := MigrationCommitted(s1, 0, sid, v, h, ref, moved);
    assert s2.objects == s.objects[v := s.objects[v].(draining := true)][ref := moved];
  }

  lemma TouchReaches(c: Clock, m: Moment, ref: Ref, at: real)
    requires Reached(c, m) && Quiet(m.pool) && m.at <= at && ref in m.pool.objects && 0.0 <= c.slack
    ensures var o := m.pool.objects[ref];
            var s' := SetObject(m.pool, ref, o.(expiresAt := at + c.ttl, lastPersist := at));
            Quiet(s') && Reached(c, Moment(s', at))
  {
    hide Reached, ApplyRequest, ApplyRemoval;
    var o := m.pool.objects[ref];
    var a := Touch(ref, o.inUse, at + c.ttl, at);
    StepSound(m.pool, a);
    hide Sound;
    ReachOn(c, m, a, Moment(SetObject(m.pool, ref, o.(expiresAt := at + c.ttl, lastPersist := at)), at));
  }

  // ----- a short ttl -----

  lemma ShortTtlDue(c: Clock)
    requires Fits(c) && c.ttl < USER_WINDOW + c.slack
    ensures exists m, sid :: Reached(c, m) && UserDue(m, sid)
  {
    var start := Pool([Profile(false, 0, Healthy, false, 0)], map[], map[], map[], 0);
    var since := c.ttl;
    var o := Session(Hex(0), 0, since + c.ttl - c.slack, 0, "user", true, false, since, "m", "p");
    assert ReachedIn(0, c, Moment(start, since));
    hide ReachedIn;
    assert Reached(c, Moment(start, since));
    RehydrateReaches(c, Moment(start, since), 0, 0, o, since);
    var s := Rehydrated(start, 0, 0, o);
    var now := if c.slack <= c.ttl then since + c.ttl - c.slack else since;
    Waits(c, Moment(s, since), now);
    hide Reached;
    assert UserDue(Moment(s, now), Hex(0));
  }
}
