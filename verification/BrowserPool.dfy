/** The stealth scraper's browser pool (services/stealth-scraper/app/engine.py, profiles.py) as a state machine.

    Session objects are updated in place and outlive their registry entry, so they live in `objects`, keyed by
    identity; `sessions` is the registry.  An action is one stretch of code between two awaits.  What a browser,
    a page or the network answers, and what the clock reads, is the action's arguments. */
module BrowserPool {
  import opened Optional

  type Pid = nat // index of a profile
  type Ref = nat // identity of a session object
  type Tid = nat // a coroutine

  /** Resolved streams carry a hex uuid; warm fetch sessions a key.  Only hex ids are ever persisted. */
  datatype Sid = Hex(n: nat) | Warm(key: string)

  datatype Status = Healthy | Crashed | Warming

  datatype Profile = Profile(leased: bool, uses: nat, status: Status, launched: bool, consecutiveFail: nat)

  datatype Session = Session(sid: Sid, profile: Pid, expiresAt: real, inUse: nat, userKey: string,
                             ownsProfile: bool, draining: bool, lastPersist: real,
                             masterUrl: string, playerUrl: string)

  /** What a request coroutine is building. `left` counts the browser attempts after the current one. */
  datatype Job = ResolveJob(left: nat) | WarmJob(key: string) | RehydrateJob(n: nat)

  datatype Stage =
    | Queued                            // waiting for the per-key lock
    | Probing(existing: Ref)            // liveness probe of the session found under the key
    | ClosingDead(popped: Option<Ref>)  // aclose_session on a dead warm session, page close awaited
    | Seeking                           // about to lease, nothing held
    | Holding(profile: Pid)             // inside the try block
    | CleaningUp(held: Pid, again: bool) // inside an except clause, before its release

  datatype Task =
    | Work(job: Job, stage: Stage)
    | Closing(ref: Ref)                                      // aclose_session, page close awaited
    | Reaping(now: real, rest: seq<(Sid, Ref)>, popped: Option<Ref>)
    | Migrating(sid: Sid, victim: Ref, survivor: Ref)
    | Retiring(retired: Ref)                                  // _retire_after_drain

  /** `secondReleases` counts calls of `release` that found the profile already free. */
  datatype Pool = Pool(profiles: seq<Profile>, objects: map<Ref, Session>, sessions: map<Sid, Ref>,
                       tasks: map<Tid, Task>, secondReleases: nat)

  // ----- operations shared by the actions -----

  function Release(s: Pool, p: Pid, ok: bool): Pool
    requires p < |s.profiles|
  {
    var profile := s.profiles[p];
    s.(profiles := s.profiles[p := profile.(leased := false, uses := profile.uses + if ok then 1 else 0)],
       secondReleases := s.secondReleases + if profile.leased then 0 else 1)
  }

  function ReleaseIfOwned(s: Pool, r: Ref): Pool
    requires r in s.objects && s.objects[r].profile < |s.profiles|
  {
    if s.objects[r].ownsProfile then Release(s, s.objects[r].profile, true) else s
  }

  function Pop(s: Pool, sid: Sid): Pool { s.(sessions := s.sessions - {sid}) }

  function SetTask(s: Pool, t: Tid, task: Task): Pool { s.(tasks := s.tasks[t := task]) }

  function EndTask(s: Pool, t: Tid): Pool { s.(tasks := s.tasks - {t}) }

  function SetObject(s: Pool, r: Ref, o: Session): Pool { s.(objects := s.objects[r := o]) }

  predicate Registered(s: Pool, sid: Sid) { sid in s.sessions && s.sessions[sid] in s.objects }

  function At(s: Pool, sid: Sid): Session
    requires Registered(s, sid)
  {
    s.objects[s.sessions[sid]]
  }

  /** A rider (a migrated session) shares this profile's browser. */
  predicate HasRider(s: Pool, p: Pid) {
    exists sid | sid in s.sessions.Keys :: Registered(s, sid) && !At(s, sid).ownsProfile && At(s, sid).profile == p
  }

  const USER_WINDOW: real := 180.0

  predicate IsUser(o: Session, now: real) {
    o.userKey != "" && (o.inUse > 0 || now - o.lastPersist < USER_WINDOW)
  }

  predicate Expired(o: Session, now: real) { o.expiresAt <= now && o.inUse == 0 }

  /** The test `_evict_expired` and `_reap` apply to one session object. */
  predicate Sweepable(s: Pool, r: Ref, now: real)
    requires r in s.objects
  {
    Expired(s.objects[r], now) && !(s.objects[r].ownsProfile && HasRider(s, s.objects[r].profile))
  }

  predicate LruCandidate(s: Pool, sid: Sid) {
    Registered(s, sid) && At(s, sid).inUse == 0 && !At(s, sid).draining && !HasRider(s, At(s, sid).profile)
  }

  predicate Killable(s: Pool, sid: Sid, now: real) {
    Registered(s, sid) && !IsUser(At(s, sid), now) && !HasRider(s, At(s, sid).profile)
  }

  predicate CanHost(s: Pool, sid: Sid) {
    Registered(s, sid) && At(s, sid).ownsProfile && !At(s, sid).draining
  }

  function Target(job: Job): Option<Sid> {
    match job
    case ResolveJob(_) => None
    case WarmJob(key) => Some(Warm(key))
    case RehydrateJob(n) => Some(Hex(n))
  }

  /** Past the per-key lock. */
  predicate Inside(task: Task) { task.Work? && !task.stage.Queued? && Target(task.job).Some? }

  predicate LockFree(s: Pool, sid: Sid) {
    forall t | t in s.tasks.Keys :: Inside(s.tasks[t]) ==> Target(s.tasks[t].job) != Some(sid)
  }

  /** What uuid4 promises: no registered session, object or coroutine uses the id. */
  predicate FreshSid(s: Pool, sid: Sid) {
    && sid.Hex? && sid !in s.sessions
    && (forall t | t in s.tasks.Keys :: s.tasks[t].Work? ==> Target(s.tasks[t].job) != Some(sid))
    && (forall t | t in s.tasks.Keys :: s.tasks[t].Migrating? ==> s.tasks[t].sid != sid)
  }

  predicate IsItems(s: Pool, items: seq<(Sid, Ref)>) {
    && (forall i | 0 <= i < |items| :: items[i].0 in s.sessions && s.sessions[items[i].0] == items[i].1)
    && (forall i, j | 0 <= i < j < |items| :: items[i].0 != items[j].0)
    && (forall sid | sid in s.sessions.Keys :: (sid, s.sessions[sid]) in items)
  }

  // ----- actions -----

  datatype Action =
    | Start(t: Tid, job: Job)
    | Enter(t: Tid)                  // take the per-key lock, look the key up
    | ProbeAlive(t: Tid)             // the warm session answers: reuse it
    | ProbeDead(t: Tid)              // it does not: aclose_session pops it
    | CloseDeadDone(t: Tid)
    | Acquire(t: Tid, p: Pid)
    | GiveUp(t: Tid)                 // pool exhausted, quota, or client gone, with nothing leased
    | Fail(t: Tid, again: bool)      // any exception in the try block, CancelledError included
    | ReturnLease(t: Tid)            // the except clause's release, then retry or raise
    | Open(t: Tid, ref: Ref, session: Session, answered: bool) // register; building the answer may still raise
    | Abandon(t: Tid)                // cancelled where no handler releases: a handler, or `_rehydrate`
    | ClosePop(t: Tid, sid: Sid)     // aclose_session up to its await
    | CloseDone(t: Tid)
    | Forgo(t: Tid)                  // a close or retirement never gets to its release: cancelled, or the store raises
    | SweepExpired(sid: Sid, now: real)
    | EvictLru(sid: Sid)
    | ForceKill(sid: Sid, now: real)
    | ReapStart(t: Tid, now: real, items: seq<(Sid, Ref)>)
    | ReapNext(t: Tid)               // one snapshot entry, up to the page close
    | ReapRelease(t: Tid)
    | ReapEnd(t: Tid)
    | MigrateStart(t: Tid, sid: Sid, survivor: Sid)
    | MigrateFail(t: Tid)
    | MigrateCommit(t: Tid, ref: Ref, expiresAt: real, persistedAt: real)
    | RetireDone(t: Tid)
    | Touch(ref: Ref, inUse: nat, expiresAt: real, lastPersist: real)
    | Health(p: Pid, status: Status, launched: bool, consecutiveFail: nat, uses: nat)

  predicate AtStage(s: Pool, t: Tid) { t in s.tasks && s.tasks[t].Work? }

  predicate Enabled(s: Pool, a: Action) {
    match a
    case Start(t, _) => t !in s.tasks
    case Enter(t) => AtStage(s, t) && s.tasks[t].stage.Queued? && Target(s.tasks[t].job).Some?
                     && LockFree(s, Target(s.tasks[t].job).value)
    case ProbeAlive(t) => AtStage(s, t) && s.tasks[t].stage.Probing?
    case ProbeDead(t) => AtStage(s, t) && s.tasks[t].stage.Probing? && Target(s.tasks[t].job).Some?
    case CloseDeadDone(t) => AtStage(s, t) && s.tasks[t].stage.ClosingDead?
    case Acquire(t, p) => AtStage(s, t) && s.tasks[t].stage.Seeking? && p < |s.profiles|
                          && !s.profiles[p].leased && s.profiles[p].status == Healthy
    case GiveUp(t) => AtStage(s, t) && (s.tasks[t].stage.Queued? || s.tasks[t].stage.Probing? || s.tasks[t].stage.Seeking?)
    case Fail(t, again) => AtStage(s, t) && s.tasks[t].stage.Holding? && (again ==> s.tasks[t].job.ResolveJob?)
    case ReturnLease(t) =>
      AtStage(s, t) && s.tasks[t].stage.CleaningUp? && (s.tasks[t].stage.again ==> s.tasks[t].job.ResolveJob?)
    case Open(t, ref, o, answered) =>
      && AtStage(s, t) && s.tasks[t].stage.Holding? && ref !in s.objects && (answered || !s.tasks[t].job.WarmJob?)
      && o.profile == s.tasks[t].stage.profile && o.ownsProfile && !o.draining && o.inUse == 0
      && (if Target(s.tasks[t].job).Some? then o.sid == Target(s.tasks[t].job).value else FreshSid(s, o.sid))
    case Abandon(t) =>
      AtStage(s, t) && (s.tasks[t].stage.CleaningUp? || s.tasks[t].stage.ClosingDead?
                        || (s.tasks[t].stage.Holding? && s.tasks[t].job.RehydrateJob?))
    case ClosePop(t, sid) => t !in s.tasks && Registered(s, sid)
    case CloseDone(t) => t in s.tasks && s.tasks[t].Closing?
    case Forgo(t) => t in s.tasks && (s.tasks[t].Closing? || s.tasks[t].Retiring?)
    case SweepExpired(sid, now) => Registered(s, sid) && Sweepable(s, s.sessions[sid], now)
    case EvictLru(sid) =>
      && LruCandidate(s, sid)
      && (forall other | other in s.sessions.Keys :: LruCandidate(s, other) ==> At(s, sid).expiresAt <= At(s, other).expiresAt)
    case ForceKill(sid, now) => Killable(s, sid, now)
    case ReapStart(t, _, items) => t !in s.tasks && IsItems(s, items)
    case ReapNext(t) => t in s.tasks && s.tasks[t].Reaping? && s.tasks[t].popped.None? && s.tasks[t].rest != []
    case ReapRelease(t) => t in s.tasks && s.tasks[t].Reaping? && s.tasks[t].popped.Some?
    case ReapEnd(t) => t in s.tasks && s.tasks[t].Reaping? && s.tasks[t].popped.None? && s.tasks[t].rest == []
    case MigrateStart(t, sid, survivor) =>
      && t !in s.tasks && Registered(s, sid) && !At(s, sid).draining && At(s, sid).playerUrl != ""
      && survivor != sid && CanHost(s, survivor)
    case MigrateFail(t) => t in s.tasks && s.tasks[t].Migrating?
    case MigrateCommit(t, ref, _, _) => t in s.tasks && s.tasks[t].Migrating? && ref !in s.objects
    case RetireDone(t) => t in s.tasks && s.tasks[t].Retiring?
    case Touch(ref, _, _, _) => ref in s.objects
    case Health(p, _, _, _, _) => p < |s.profiles|
  }

  /** Everything a task or the registry points at exists. */
  predicate TaskFits(s: Pool, task: Task) {
    match task
    case Work(_, stage) => (match stage
                            case Probing(r) => r in s.objects
                            case ClosingDead(popped) => popped.Some? ==> popped.value in s.objects
                            case Holding(p) => p < |s.profiles|
                            case CleaningUp(p, _) => p < |s.profiles|
                            case _ => true)
    case Closing(r) => r in s.objects
    case Reaping(_, rest, popped) =>
      && (popped.Some? ==> popped.value in s.objects)
      && forall i | 0 <= i < |rest| :: rest[i].1 in s.objects && s.objects[rest[i].1].sid == rest[i].0
    case Migrating(sid, victim, survivor) => victim in s.objects && s.objects[victim].sid == sid && survivor in s.objects
    case Retiring(r) => r in s.objects
  }

  predicate Sound(s: Pool) {
    && (forall sid | sid in s.sessions.Keys :: Registered(s, sid) && At(s, sid).sid == sid)
    && (forall r | r in s.objects.Keys :: s.objects[r].profile < |s.profiles|)
    && (forall t | t in s.tasks.Keys :: TaskFits(s, s.tasks[t]))
  }

  /** One entry of the reaper's snapshot: `session` is looked at, whatever is registered under `sid` is popped. */
  function ReapEntry(s: Pool, t: Tid, sid: Sid, r: Ref): Pool
    requires t in s.tasks && s.tasks[t].Reaping? && s.tasks[t].rest != [] && r in s.objects
  {
    var Reaping(now, rest, _) := s.tasks[t];
    if Sweepable(s, r, now)
    then SetTask(Pop(s, sid), t, Reaping(now, rest[1..], Some(r)))
    else SetTask(s, t, Reaping(now, rest[1..], None))
  }

  function Dec(n: nat): nat { if n == 0 then 0 else n - 1 }

  /** The session a successful migration registers in the victim's place. */
  function Moved(victim: Session, survivor: Session, expiresAt: real, persistedAt: real): Session {
    victim.(profile := survivor.profile, expiresAt := expiresAt, inUse := 0, ownsProfile := false,
            draining := false, lastPersist := persistedAt)
  }

  // ----- what each stretch of code does -----

  function Entered(s: Pool, t: Tid, job: Job): Pool
    requires Target(job).Some?
  {
    var key := Target(job).value;
    if key !in s.sessions then SetTask(s, t, Work(job, Seeking))
    else if job.WarmJob? then SetTask(s, t, Work(job, Probing(s.sessions[key])))
    else EndTask(s, t)
  }

  function PoppedDead(s: Pool, t: Tid, job: Job): Pool
    requires Target(job).Some?
  {
    var key := Target(job).value;
    SetTask(Pop(s, key), t, Work(job, ClosingDead(if key in s.sessions then Some(s.sessions[key]) else None)))
  }

  function ClosedDead(s: Pool, t: Tid, job: Job, popped: Option<Ref>): Pool
    requires popped.Some? ==> popped.value in s.objects && s.objects[popped.value].profile < |s.profiles|
  {
    SetTask(if popped.Some? then ReleaseIfOwned(s, popped.value) else s, t, Work(job, Seeking))
  }

  function Leased(s: Pool, t: Tid, job: Job, p: Pid): Pool
    requires p < |s.profiles|
  {
    SetTask(s.(profiles := s.profiles[p := s.profiles[p].(leased := true)]), t, Work(job, Holding(p)))
  }

  function Returned(s: Pool, t: Tid, job: Job, p: Pid, again: bool): Pool
    requires p < |s.profiles|
  {
    if again && job.ResolveJob? && job.left > 0
    then SetTask(Release(s, p, false), t, Work(ResolveJob(job.left - 1), Seeking))
    else EndTask(Release(s, p, false), t)
  }

  function Listed(s: Pool, ref: Ref, o: Session): Pool { SetObject(s, ref, o).(sessions := s.sessions[o.sid := ref]) }

  /** Registered and answered; or registered, and the except clause of the same try block is about to release. */
  function Opened(s: Pool, t: Tid, ref: Ref, o: Session, answered: bool): Pool
    requires AtStage(s, t)
  {
    var job := s.tasks[t].job;
    if answered then EndTask(Listed(s, ref, o), t)
    else SetTask(Listed(s, ref, o), t, Work(job, CleaningUp(o.profile, job.ResolveJob?)))
  }

  function Evicted(s: Pool, sid: Sid): Pool
    requires Registered(s, sid) && At(s, sid).profile < |s.profiles|
  {
    ReleaseIfOwned(Pop(s, sid), s.sessions[sid])
  }

  function MigrationStarted(s: Pool, t: Tid, sid: Sid, v: Ref, h: Ref): Pool
    requires v in s.objects && h in s.objects
  {
    var marked := SetObject(s, v, s.objects[v].(draining := true));
    SetTask(SetObject(marked, h, marked.objects[h].(inUse := marked.objects[h].inUse + 1)), t, Migrating(sid, v, h))
  }

  function Unshielded(s: Pool, h: Ref): Pool
    requires h in s.objects
  {
    SetObject(s, h, s.objects[h].(inUse := Dec(s.objects[h].inUse)))
  }

  function MigrationFailed(s: Pool, t: Tid, v: Ref, h: Ref): Pool
    requires v in s.objects && h in s.objects
  {
    var u := Unshielded(s, h);
    EndTask(SetObject(u, v, u.objects[v].(draining := false)), t)
  }

  function MigrationCommitted(s: Pool, t: Tid, sid: Sid, v: Ref, h: Ref, ref: Ref, moved: Session): Pool
    requires h in s.objects
  {
    SetTask(SetObject(Unshielded(s, h), ref, moved).(sessions := s.sessions[sid := ref]), t, Retiring(v))
  }

  /** Steps of `resolve`, `_warm_fetch_session` and `_rehydrate`. */
  predicate OfRequest(a: Action) {
    a.Start? || a.Enter? || a.ProbeAlive? || a.ProbeDead? || a.CloseDeadDone? || a.Acquire? || a.GiveUp? || a.Fail?
    || a.ReturnLease? || a.Open? || a.Abandon?
  }

  function ApplyRequest(s: Pool, a: Action): Pool
    requires Sound(s) && Enabled(s, a) && OfRequest(a)
  {
    match a
    case Start(t, job) => SetTask(s, t, Work(job, if job.ResolveJob? then Seeking else Queued))
    case Enter(t) => Entered(s, t, s.tasks[t].job)
    case ProbeAlive(t) => EndTask(s, t)
    case ProbeDead(t) => PoppedDead(s, t, s.tasks[t].job)
    case CloseDeadDone(t) => ClosedDead(s, t, s.tasks[t].job, s.tasks[t].stage.popped)
    case Acquire(t, p) => Leased(s, t, s.tasks[t].job, p)
    case GiveUp(t) => EndTask(s, t)
    case Fail(t, again) => SetTask(s, t, Work(s.tasks[t].job, CleaningUp(s.tasks[t].stage.profile, again)))
    case ReturnLease(t) => Returned(s, t, s.tasks[t].job, s.tasks[t].stage.held, s.tasks[t].stage.again)
    case Open(t, ref, o, answered) => Opened(s, t, ref, o, answered)
    case Abandon(t) => EndTask(s, t)
    case _ => s
  }

  /** Migration, its retirement, and updates in place. */
  predicate OfMigration(a: Action) {
    a.MigrateStart? || a.MigrateFail? || a.MigrateCommit? || a.RetireDone? || a.Touch? || a.Health?
  }

  function ApplyMigration(s: Pool, a: Action): Pool
    requires Sound(s) && Enabled(s, a) && OfMigration(a)
  {
    match a
    case MigrateStart(t, sid, survivor) => MigrationStarted(s, t, sid, s.sessions[sid], s.sessions[survivor])
    case MigrateFail(t) => MigrationFailed(s, t, s.tasks[t].victim, s.tasks[t].survivor)
    case MigrateCommit(t, ref, expiresAt, persistedAt) =>
      var Migrating(sid, v, h) := s.tasks[t];
      MigrationCommitted(s, t, sid, v, h, ref, Moved(s.objects[v], s.objects[h], expiresAt, persistedAt))
    case RetireDone(t) => EndTask(ReleaseIfOwned(s, s.tasks[t].retired), t)
    case Touch(ref, inUse, expiresAt, lastPersist) =>
      SetObject(s, ref, s.objects[ref].(inUse := inUse, expiresAt := expiresAt, lastPersist := lastPersist))
    case Health(p, status, launched, fails, uses) =>
      s.(profiles := s.profiles[p := s.profiles[p].(status := status, launched := launched, consecutiveFail := fails, uses := uses)])
    case _ => s
  }

  /** Closes, sweeps, evictions, kills and the reaper. */
  function ApplyRemoval(s: Pool, a: Action): Pool
    requires Sound(s) && Enabled(s, a) && !OfRequest(a) && !OfMigration(a)
  {
    match a
    case ClosePop(t, sid) => SetTask(Pop(s, sid), t, Closing(s.sessions[sid]))
    case CloseDone(t) => EndTask(ReleaseIfOwned(s, s.tasks[t].ref), t)
    case Forgo(t) => EndTask(s, t)
    case SweepExpired(sid, _) => Evicted(s, sid)
    case EvictLru(sid) => Evicted(s, sid)
    case ForceKill(sid, _) => Evicted(s, sid)
    case ReapStart(t, now, items) => SetTask(s, t, Reaping(now, items, None))
    case ReapNext(t) => ReapEntry(s, t, s.tasks[t].rest[0].0, s.tasks[t].rest[0].1)
    case ReapRelease(t) =>
      SetTask(ReleaseIfOwned(s, s.tasks[t].popped.value), t, Reaping(s.tasks[t].now, s.tasks[t].rest, None))
    case ReapEnd(t) => EndTask(s, t)
    case _ => s
  }

  function Apply(s: Pool, a: Action): Pool
    requires Sound(s) && Enabled(s, a)
  {
    if OfRequest(a) then ApplyRequest(s, a)
    else if OfMigration(a) then ApplyMigration(s, a)
    else ApplyRemoval(s, a)
  }

  // ----- runs -----

  ghost predicate IsRun(s: Pool, actions: seq<Action>)
    decreases |actions|
  {
    actions == [] || (Sound(s) && Enabled(s, actions[0]) && IsRun(Apply(s, actions[0]), actions[1..]))
  }

  ghost function After(s: Pool, actions: seq<Action>): Pool
    requires IsRun(s, actions)
    decreases |actions|
  {
    if actions == [] then s else After(Apply(s, actions[0]), actions[1..])
  }

  ghost predicate Initial(s: Pool) {
    && s.objects == map[] && s.sessions == map[] && s.tasks == map[] && s.secondReleases == 0
    && forall p | 0 <= p < |s.profiles| :: !s.profiles[p].leased
  }
}
