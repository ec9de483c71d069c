/** User streams that were migrated ride another session's browser.  Nothing but an explicit close or a
    migration of the host itself takes that browser away under the rider. */
module RiderShield {
  import opened Optional
  import opened BrowserPool
  import opened LeaseLedger

  ghost predicate RegisteredAs(s: Pool, sid: Sid, r: Ref) { sid in s.sessions && s.sessions[sid] == r && r in s.objects }

  /** `rider` shares the profile that the registered session `host` owns. */
  ghost predicate Sheltered(s: Pool, rider: Sid, riderRef: Ref, host: Sid, hostRef: Ref) {
    && RegisteredAs(s, rider, riderRef) && !s.objects[riderRef].ownsProfile
    && RegisteredAs(s, host, hostRef) && s.objects[hostRef].ownsProfile
    && s.objects[riderRef].profile == s.objects[hostRef].profile
  }

  /** The host is given up on purpose: an explicit close, a dead page, or its own migration. */
  ghost predicate GivesUp(s: Pool, a: Action, host: Sid) {
    match a
    case ClosePop(_, sid) => sid == host
    case ProbeDead(t) => t in s.tasks && s.tasks[t].Work? && Target(s.tasks[t].job) == Some(host)
    case MigrateCommit(t, _, _, _) => t in s.tasks && s.tasks[t].Migrating? && s.tasks[t].sid == host
    case _ => false
  }

  /** The reaper's snapshot names, under the host's id, an object that is not the host any more. */
  ghost predicate StaleEntry(s: Pool, a: Action, host: Sid, hostRef: Ref) {
    match a
    case ReapNext(t) =>
      && t in s.tasks && s.tasks[t].Reaping? && s.tasks[t].rest != []
      && var (sid, r) := s.tasks[t].rest[0];
         sid == host && r != hostRef && r in s.objects && Sweepable(s, r, s.tasks[t].now)
    case _ => false
  }

  /** The registry only loses entries or gains objects that did not exist. */
  lemma RegistryStep(s: Pool, a: Action, sid: Sid)
    requires Sound(s) && Enabled(s, a) && sid in Apply(s, a).sessions
    ensures var r := Apply(s, a).sessions[sid];
            (sid in s.sessions && s.sessions[sid] == r) || r !in s.objects
  {
    hide Sound;
    match a
    case Open(t, ref, o, _) =>
    case MigrateCommit(t, ref, _, _) =>
    case _ => OnlyLoses(s, a);
  }

  lemma OnlyLoses(s: Pool, a: Action)
    requires Sound(s) && Enabled(s, a) && !a.Open? && !a.MigrateCommit?
    ensures forall sid :: sid in Apply(s, a).sessions ==> sid in s.sessions && s.sessions[sid] == Apply(s, a).sessions[sid]
  {
    hide Sound, TaskFits, HasRider, IsItems, LockFree, LruCandidate;
  }

  ghost predicate SameIdentity(o: Session, o': Session) {
    o'.sid == o.sid && o'.profile == o.profile && o'.ownsProfile == o.ownsProfile
  }

  /** Identity, profile and ownership of a session object never change. */
  lemma ObjectStep(s: Pool, a: Action, r: Ref)
    requires Sound(s) && Enabled(s, a) && r in s.objects
    ensures r in Apply(s, a).objects && SameIdentity(s.objects[r], Apply(s, a).objects[r])
  {
    hide Sound, TaskFits, HasRider, IsItems, LockFree, LruCandidate;
    if a.MigrateStart? || a.MigrateFail? || a.MigrateCommit? || a.Open? || a.Touch? {
      ObjectStepChanging(s, a, r);
    }
  }

  lemma ObjectStepChanging(s: Pool, a: Action, r: Ref)
    requires Sound(s) && Enabled(s, a) && r in s.objects
    requires a.MigrateStart? || a.MigrateFail? || a.MigrateCommit? || a.Open? || a.Touch?
    ensures r in Apply(s, a).objects && SameIdentity(s.objects[r], Apply(s, a).objects[r])
  {
    hide HasRider, IsItems, LockFree, LruCandidate, ApplyRemoval, FreshSid;
  }

  lemma RiderSeen(s: Pool, rider: Sid, riderRef: Ref, host: Sid, hostRef: Ref)
    requires Sheltered(s, rider, riderRef, host, hostRef)
    ensures HasRider(s, s.objects[hostRef].profile)
  {
    assert Registered(s, rider);
  }

  /** Nobody is about to open a session under the host's id. */
  ghost predicate Settled(s: Pool, host: Sid) {
    forall t :: t in s.tasks && Building(s.tasks[t]) ==> Target(s.tasks[t].job) != Some(host)
  }

  lemma LockedSettles(s: Pool, rider: Sid, riderRef: Ref, host: Sid, hostRef: Ref)
    requires Locked(s) && Sheltered(s, rider, riderRef, host, hostRef)
    ensures Settled(s, host)
  {
    assert LeaseOf(s, AtSession(host)) == Some(s.objects[hostRef].profile);
  }

  /** The host leaves the registry exactly when it is given up on purpose or a reaper entry under its id is
      stale: no other sweep, reaper pass, eviction, kill, request or migration takes it away. */
  lemma HostStays(s: Pool, a: Action, rider: Sid, riderRef: Ref, host: Sid, hostRef: Ref)
    requires Sound(s) && Enabled(s, a) && Sheltered(s, rider, riderRef, host, hostRef) && Settled(s, host)
    ensures RegisteredAs(Apply(s, a), host, hostRef) <==> !GivesUp(s, a, host) && !StaleEntry(s, a, host, hostRef)
  {
    hide HasRider, IsItems, LockFree, Sound, TaskFits;
    RiderSeen(s, rider, riderRef, host, hostRef);
    ObjectStep(s, a, hostRef);
    if a.Open? {
      OpensElsewhere(s, a, host);
    } else if a.ReapNext? {
      EntryFits(s, a.t);
    } else {
      assert !StaleEntry(s, a, host, hostRef);
      OthersKeepHost(s, a, host, hostRef);
    }
  }

  lemma OpensElsewhere(s: Pool, a: Action, host: Sid)
    requires Enabled(s, a) && a.Open? && host in s.sessions && Settled(s, host)
    ensures a.session.sid != host
  {
  }

  lemma EntryFits(s: Pool, t: Tid)
    requires Sound(s) && Enabled(s, ReapNext(t))
    ensures s.tasks[t].rest[0].1 in s.objects && s.objects[s.tasks[t].rest[0].1].sid == s.tasks[t].rest[0].0
  {
    assert TaskFits(s, s.tasks[t]);
  }

  lemma OthersKeepHost(s: Pool, a: Action, host: Sid, hostRef: Ref)
    requires Sound(s) && Enabled(s, a) && !a.Open? && !a.ReapNext?
    requires RegisteredAs(s, host, hostRef) && s.objects[hostRef].ownsProfile && HasRider(s, s.objects[hostRef].profile)
    ensures host in Apply(s, a).sessions && Apply(s, a).sessions[host] == hostRef <==> !GivesUp(s, a, host)
  {
    hide HasRider, IsItems, LockFree, Sound, TaskFits;
    if OfRequest(a) {
      hide ApplyMigration, ApplyRemoval;
    } else if OfMigration(a) {
      hide ApplyRequest, ApplyRemoval;
    } else {
      hide ApplyRequest, ApplyMigration;
    }
  }

  // ----- the shield, over every run -----

  /** The coroutine cannot come to release what hostRef owns. */
  ghost predicate Away(s: Pool, task: Task, host: Sid, hostRef: Ref)
    requires hostRef in s.objects
  {
    var p := s.objects[hostRef].profile;
    match task
    case Work(job, stage) =>
      && (Building(task) ==> Target(job) != Some(host))
      && (match stage
          case Holding(q) => q != p
          case CleaningUp(q, _) => q != p
          case ClosingDead(popped) => popped.Some? ==> ObjectLease(s, popped.value) != Some(p)
          case _ => true)
    case Closing(r) => ObjectLease(s, r) != Some(p)
    case Reaping(_, rest, popped) =>
      && (popped.Some? ==> ObjectLease(s, popped.value) != Some(p))
      && forall i :: 0 <= i < |rest| ==> EntryAway(s, rest[i], host, hostRef)
    case Migrating(_, v, _) => ObjectLease(s, v) == Some(p) ==> v == hostRef
    case Retiring(r) => ObjectLease(s, r) != Some(p)
  }

  ghost predicate EntryAway(s: Pool, entry: (Sid, Ref), host: Sid, hostRef: Ref)
    requires hostRef in s.objects
  {
    (entry.0 == host || ObjectLease(s, entry.1) == Some(s.objects[hostRef].profile)) ==> entry.1 == hostRef
  }

  /** The host owns a leased profile that nobody else can come to release. */
  ghost predicate Guarded(s: Pool, host: Sid, hostRef: Ref) {
    && RegisteredAs(s, host, hostRef) && s.objects[hostRef].ownsProfile && IsLeased(s, s.objects[hostRef].profile)
    && (forall sid :: sid in s.sessions && sid != host ==>
          ObjectLease(s, s.sessions[sid]) != Some(s.objects[hostRef].profile))
    && (forall t :: t in s.tasks ==> Away(s, s.tasks[t], host, hostRef))
  }

  /** No reaper pass and no migration in progress points at another object that owns the host's profile, nor at
      another object under the host's id.  True in particular while neither is in progress. */
  ghost predicate NoStalePointer(s: Pool, host: Sid, hostRef: Ref)
    requires hostRef in s.objects
  {
    forall t :: t in s.tasks ==>
      match s.tasks[t]
      case Reaping(_, rest, _) => forall i :: 0 <= i < |rest| ==> EntryAway(s, rest[i], host, hostRef)
      case Migrating(_, v, _) => ObjectLease(s, v) == Some(s.objects[hostRef].profile) ==> v == hostRef
      case _ => true
  }

  lemma GuardedFromInv(s: Pool, rider: Sid, riderRef: Ref, host: Sid, hostRef: Ref)
    requires Inv(s) && Sheltered(s, rider, riderRef, host, hostRef) && NoStalePointer(s, host, hostRef)
    ensures Guarded(s, host, hostRef)
  {
    hide DrainingTracked, NoStalePointer, Sound;
    var p := s.objects[hostRef].profile;
    assert LeaseOf(s, AtSession(host)) == Some(p);
    LockedSettles(s, rider, riderRef, host, hostRef);
    forall sid | sid in s.sessions && sid != host ensures ObjectLease(s, s.sessions[sid]) != Some(p) {
      assert LeaseOf(s, AtSession(sid)) == ObjectLease(s, s.sessions[sid]);
    }
    forall t | t in s.tasks ensures Away(s, s.tasks[t], host, hostRef) {
      assert LeaseOf(s, AtTask(t)) == TaskLease(s, s.tasks[t]);
      assert TaskLease(s, s.tasks[t]) != Some(p);
      NotStale(s, t, host, hostRef);
    }
  }

  lemma NotStale(s: Pool, t: Tid, host: Sid, hostRef: Ref)
    requires hostRef in s.objects && NoStalePointer(s, host, hostRef) && t in s.tasks
    ensures s.tasks[t].Reaping? ==> forall i :: 0 <= i < |s.tasks[t].rest| ==> EntryAway(s, s.tasks[t].rest[i], host, hostRef)
    ensures s.tasks[t].Migrating? && ObjectLease(s, s.tasks[t].victim) == Some(s.objects[hostRef].profile)
            ==> s.tasks[t].victim == hostRef
  {
  }

  lemma LeasesStep(s: Pool, a: Action)
    requires Sound(s) && Enabled(s, a)
    ensures forall r :: r in s.objects ==> r in Apply(s, a).objects && ObjectLease(Apply(s, a), r) == ObjectLease(s, r)
  {
    hide Sound, Enabled, Apply;
    forall r | r in s.objects ensures r in Apply(s, a).objects && ObjectLease(Apply(s, a), r) == ObjectLease(s, r) {
      ObjectStep(s, a, r);
    }
  }

  lemma AwayKept(s: Pool, s': Pool, task: Task, host: Sid, hostRef: Ref)
    requires hostRef in s.objects && hostRef in s'.objects && s'.objects[hostRef].profile == s.objects[hostRef].profile
    requires forall r :: r in s.objects ==> r in s'.objects && ObjectLease(s', r) == ObjectLease(s, r)
    requires TaskFits(s, task) && Away(s, task, host, hostRef)
    ensures Away(s', task, host, hostRef)
  {
  }

  /** The one coroutine an action belongs to; the others are left as they were. */
  function Own(a: Action): Option<Tid> {
    match a
    case SweepExpired(_, _) => None
    case EvictLru(_) => None
    case ForceKill(_, _) => None
    case Touch(_, _, _, _) => None
    case Health(_, _, _, _, _) => None
    case _ => Some(a.t)
  }

  lemma OthersUntouched(s: Pool, a: Action, t: Tid)
    requires Sound(s) && Enabled(s, a) && t in Apply(s, a).tasks && Own(a) != Some(t)
    ensures t in s.tasks && Apply(s, a).tasks[t] == s.tasks[t]
  {
    hide Sound, TaskFits, HasRider, IsItems, LockFree, LruCandidate;
    if OfRequest(a) {
      hide ApplyMigration, ApplyRemoval;
    } else if OfMigration(a) {
      hide ApplyRequest, ApplyRemoval;
    } else {
      hide ApplyRequest, ApplyMigration;
    }
  }

  lemma RequestAway(s: Pool, a: Action, host: Sid, hostRef: Ref)
    requires Sound(s) && Enabled(s, a) && OfRequest(a) && !GivesUp(s, a, host) && Guarded(s, host, hostRef)
    requires a.t in ApplyRequest(s, a).tasks
    ensures Away(s, ApplyRequest(s, a).tasks[a.t], host, hostRef)
  {
    hide ApplyRequest, Enabled, Sound, Away;
    if a.Start? || a.Enter? || a.ProbeAlive? || a.ProbeDead? || a.CloseDeadDone? {
      LookupAway(s, a, host, hostRef);
    } else {
      TryAway(s, a, host, hostRef);
    }
  }

  /** Up to the lease. */
  lemma LookupAway(s: Pool, a: Action, host: Sid, hostRef: Ref)
    requires a.Start? || a.Enter? || a.ProbeAlive? || a.ProbeDead? || a.CloseDeadDone?
    requires Sound(s) && Enabled(s, a) && !GivesUp(s, a, host) && Guarded(s, host, hostRef)
    requires a.t in ApplyRequest(s, a).tasks
    ensures Away(s, ApplyRequest(s, a).tasks[a.t], host, hostRef)
  {
    hide Sound, TaskFits, HasRider, LockFree, FreshSid, ApplyMigration, ApplyRemoval;
    assert a.t in s.tasks ==> Away(s, s.tasks[a.t], host, hostRef);
  }

  /** From the lease on. */
  lemma TryAway(s: Pool, a: Action, host: Sid, hostRef: Ref)
    requires a.Acquire? || a.GiveUp? || a.Fail? || a.ReturnLease? || a.Open? || a.Abandon?
    requires Sound(s) && Enabled(s, a) && Guarded(s, host, hostRef)
    requires a.t in ApplyRequest(s, a).tasks
    ensures Away(s, ApplyRequest(s, a).tasks[a.t], host, hostRef)
  {
    hide Sound, TaskFits, HasRider, LockFree, FreshSid, ApplyMigration, ApplyRemoval;
    assert a.t in s.tasks ==> Away(s, s.tasks[a.t], host, hostRef);
  }

  lemma MigrationAway(s: Pool, a: Action, host: Sid, hostRef: Ref)
    requires Sound(s) && Enabled(s, a) && OfMigration(a) && !GivesUp(s, a, host) && Guarded(s, host, hostRef)
    requires Own(a).Some? && a.t in ApplyMigration(s, a).tasks
    ensures Away(s, ApplyMigration(s, a).tasks[a.t], host, hostRef)
  {
    hide HasRider, ApplyRequest, ApplyRemoval, Sound, TaskFits;
    if a.MigrateCommit? {
      assert Away(s, s.tasks[a.t], host, hostRef);
      VictimOf(s, a.t, host);
    }
  }

  lemma VictimOf(s: Pool, t: Tid, host: Sid)
    requires Sound(s) && t in s.tasks && s.tasks[t].Migrating? && host in s.sessions
    ensures s.tasks[t].victim in s.objects && s.objects[s.tasks[t].victim].sid == s.tasks[t].sid
    ensures Registered(s, host) && At(s, host).sid == host
  {
    assert TaskFits(s, s.tasks[t]);
  }

  lemma RemovalAway(s: Pool, a: Action, rider: Sid, riderRef: Ref, host: Sid, hostRef: Ref)
    requires Sound(s) && Enabled(s, a) && !OfRequest(a) && !OfMigration(a) && !GivesUp(s, a, host) && Guarded(s, host, hostRef)
    requires Own(a).Some? && a.t in ApplyRemoval(s, a).tasks && Sheltered(s, rider, riderRef, host, hostRef)
    ensures Away(s, ApplyRemoval(s, a).tasks[a.t], host, hostRef)
  {
    hide HasRider, ApplyRequest, ApplyMigration, Sound, TaskFits;
    assert a.t in s.tasks ==> Away(s, s.tasks[a.t], host, hostRef);
    RiderSeen(s, rider, riderRef, host, hostRef);
    if a.ReapStart? {
      ItemsAway(s, a.items, host, hostRef);
    } else if a.ReapNext? {
      assert EntryAway(s, s.tasks[a.t].rest[0], host, hostRef);
    }
  }

  lemma ItemsAway(s: Pool, items: seq<(Sid, Ref)>, host: Sid, hostRef: Ref)
    requires IsItems(s, items) && Guarded(s, host, hostRef)
    ensures forall i :: 0 <= i < |items| ==> EntryAway(s, items[i], host, hostRef)
  {
    forall i | 0 <= i < |items| ensures EntryAway(s, items[i], host, hostRef) {
      assert items[i].0 in s.sessions && s.sessions[items[i].0] == items[i].1;
    }
  }

  lemma ReleaseSpares(s: Pool, r: Ref, p: Pid)
    requires r in s.objects && s.objects[r].profile < |s.profiles| && IsLeased(s, p) && ObjectLease(s, r) != Some(p)
    ensures IsLeased(ReleaseIfOwned(s, r), p)
  {
  }

  lemma EvictionSpares(s: Pool, sid: Sid, host: Sid, hostRef: Ref)
    requires Sound(s) && Guarded(s, host, hostRef) && Registered(s, sid) && sid != host
    ensures IsLeased(Evicted(s, sid), s.objects[hostRef].profile)
  {
    hide Sound;
    TasksFit(s);
    assert ObjectLease(s, s.sessions[sid]) != Some(s.objects[hostRef].profile);
    ReleaseSpares(Pop(s, sid), s.sessions[sid], s.objects[hostRef].profile);
  }

  lemma StaysLeased(s: Pool, a: Action, rider: Sid, riderRef: Ref, host: Sid, hostRef: Ref)
    requires Sound(s) && Enabled(s, a) && Guarded(s, host, hostRef) && Sheltered(s, rider, riderRef, host, hostRef)
    ensures IsLeased(Apply(s, a), s.objects[hostRef].profile)
  {
    hide HasRider, Sound, TaskFits, Enabled, Apply;
    RiderSeen(s, rider, riderRef, host, hostRef);
    ApplySplits(s, a);
    if OfRequest(a) {
      RequestStaysLeased(s, a, host, hostRef);
    } else if OfMigration(a) {
      MigrationStaysLeased(s, a, host, hostRef);
    } else {
      RemovalStaysLeased(s, a, host, hostRef);
    }
  }

  lemma RequestStaysLeased(s: Pool, a: Action, host: Sid, hostRef: Ref)
    requires Sound(s) && Enabled(s, a) && OfRequest(a) && Guarded(s, host, hostRef)
    ensures IsLeased(ApplyRequest(s, a), s.objects[hostRef].profile)
  {
    hide HasRider, Sound, TaskFits, IsItems, LockFree, FreshSid, ApplyMigration, ApplyRemoval;
    TasksFit(s);
    assert a.t in s.tasks ==> Away(s, s.tasks[a.t], host, hostRef);
    if a.CloseDeadDone? {
      PointersExist(s, a.t);
      if s.tasks[a.t].stage.popped.Some? {
        ReleaseSpares(s, s.tasks[a.t].stage.popped.value, s.objects[hostRef].profile);
      }
    } else if a.ReturnLease? {
      HeldExists(s, a.t);
    }
  }

  lemma MigrationStaysLeased(s: Pool, a: Action, host: Sid, hostRef: Ref)
    requires Sound(s) && Enabled(s, a) && OfMigration(a) && Guarded(s, host, hostRef)
    ensures IsLeased(ApplyMigration(s, a), s.objects[hostRef].profile)
  {
    hide HasRider, Sound, TaskFits, IsItems, LockFree, ApplyRequest, ApplyRemoval;
    TasksFit(s);
    if a.RetireDone? {
      assert Away(s, s.tasks[a.t], host, hostRef);
      PointersExist(s, a.t);
      ReleaseSpares(s, s.tasks[a.t].retired, s.objects[hostRef].profile);
    }
  }

  lemma PointersExist(s: Pool, t: Tid)
    requires Sound(s) && t in s.tasks
    ensures s.tasks[t].Retiring? ==> s.tasks[t].retired in s.objects
    ensures s.tasks[t].Closing? ==> s.tasks[t].ref in s.objects
    ensures s.tasks[t].Reaping? && s.tasks[t].popped.Some? ==> s.tasks[t].popped.value in s.objects
    ensures s.tasks[t].Work? && s.tasks[t].stage.ClosingDead? && s.tasks[t].stage.popped.Some?
            ==> s.tasks[t].stage.popped.value in s.objects
  {
    assert TaskFits(s, s.tasks[t]);
  }

  lemma RemovalStaysLeased(s: Pool, a: Action, host: Sid, hostRef: Ref)
    requires Sound(s) && Enabled(s, a) && !OfRequest(a) && !OfMigration(a)
    requires Guarded(s, host, hostRef) && HasRider(s, s.objects[hostRef].profile)
    ensures IsLeased(ApplyRemoval(s, a), s.objects[hostRef].profile)
  {
    hide HasRider, Sound, TaskFits, IsItems, LockFree, ApplyRequest, ApplyMigration;
    TasksFit(s);
    assert Own(a).Some? && a.t in s.tasks ==> Away(s, s.tasks[a.t], host, hostRef);
    match a
    case SweepExpired(sid, _) => EvictionSpares(s, sid, host, hostRef);
    case EvictLru(sid) =>
      assert LruCandidate(s, sid);
      EvictionSpares(s, sid, host, hostRef);
    case ForceKill(sid, now) =>
      assert Killable(s, sid, now);
      EvictionSpares(s, sid, host, hostRef);
    case CloseDone(t) =>
      PointersExist(s, t);
      ReleaseSpares(s, s.tasks[t].ref, s.objects[hostRef].profile);
    case ReapRelease(t) =>
      PointersExist(s, t);
      ReleaseSpares(s, s.tasks[t].popped.value, s.objects[hostRef].profile);
    case _ =>
  }

  lemma OthersElsewhere(s: Pool, a: Action, host: Sid, hostRef: Ref, sid: Sid)
    requires Sound(s) && Enabled(s, a) && Guarded(s, host, hostRef) && sid in Apply(s, a).sessions && sid != host
    ensures ObjectLease(Apply(s, a), Apply(s, a).sessions[sid]) != Some(s.objects[hostRef].profile)
  {
    hide Sound, TaskFits, HasRider, IsItems, LockFree;
    LeasesStep(s, a);
    if a.Open? {
      assert Away(s, s.tasks[a.t], host, hostRef);
      RegistryStep(s, a, sid);
    } else if a.MigrateCommit? {
      hide Away;
      MovedOwnsNothing(s, a);
      if sid in s.sessions { RegisteredAll(s, sid); }
    } else {
      hide Away, Apply;
      OnlyLoses(s, a);
      assert s.sessions[sid] in s.objects by { RegisteredAll(s, sid); }
    }
  }

  lemma RegisteredAll(s: Pool, sid: Sid)
    requires Sound(s) && sid in s.sessions
    ensures Registered(s, sid)
  {
  }

  lemma MovedOwnsNothing(s: Pool, a: Action)
    requires Sound(s) && Enabled(s, a) && a.MigrateCommit?
    ensures a.ref !in s.objects && ObjectLease(Apply(s, a), a.ref) == None
    ensures Apply(s, a).sessions == s.sessions[s.tasks[a.t].sid := a.ref]
  {
    hide HasRider, ApplyRequest, ApplyRemoval;
    assert TaskFits(s, s.tasks[a.t]);
  }

  /** Whatever the action, safe or not: while the rider is registered its host stays registered, its profile
      leased, and nobody else in a position to release it, unless the host is given up on purpose. */
  lemma ShieldStep(s: Pool, a: Action, rider: Sid, riderRef: Ref, host: Sid, hostRef: Ref)
    requires Sound(s) && Enabled(s, a) && !GivesUp(s, a, host)
    requires Guarded(s, host, hostRef) && Sheltered(s, rider, riderRef, host, hostRef)
    ensures Guarded(Apply(s, a), host, hostRef)
    ensures RegisteredAs(Apply(s, a), rider, riderRef) ==> Sheltered(Apply(s, a), rider, riderRef, host, hostRef)
  {
    hide Sound, Enabled, Apply, Away, Safe, GivesUp;
    var s' := Apply(s, a);
    GuardedSettles(s, host, hostRef);
    NotStaleEntry(s, a, host, hostRef);
    HostStays(s, a, rider, riderRef, host, hostRef);
    ObjectStep(s, a, riderRef);
    ObjectStep(s, a, hostRef);
    LeasesStep(s, a);
    StaysLeased(s, a, rider, riderRef, host, hostRef);
    forall sid | sid in s'.sessions && sid != host ensures ObjectLease(s', s'.sessions[sid]) != Some(s.objects[hostRef].profile) {
      OthersElsewhere(s, a, host, hostRef, sid);
    }
    forall t | t in s'.tasks ensures Away(s', s'.tasks[t], host, hostRef) {
      TaskAway(s, a, rider, riderRef, host, hostRef, t);
    }
  }

  lemma GuardedSettles(s: Pool, host: Sid, hostRef: Ref)
    requires Guarded(s, host, hostRef)
    ensures Settled(s, host)
  {
    forall t | t in s.tasks && Building(s.tasks[t]) ensures Target(s.tasks[t].job) != Some(host) {
      assert Away(s, s.tasks[t], host, hostRef);
    }
  }

  lemma NotStaleEntry(s: Pool, a: Action, host: Sid, hostRef: Ref)
    requires Guarded(s, host, hostRef)
    ensures !StaleEntry(s, a, host, hostRef)
  {
    if a.ReapNext? && a.t in s.tasks && s.tasks[a.t].Reaping? && s.tasks[a.t].rest != [] {
      assert Away(s, s.tasks[a.t], host, hostRef);
      assert EntryAway(s, s.tasks[a.t].rest[0], host, hostRef);
    }
  }

  lemma TaskAway(s: Pool, a: Action, rider: Sid, riderRef: Ref, host: Sid, hostRef: Ref, t: Tid)
    requires Sound(s) && Enabled(s, a) && !GivesUp(s, a, host) && t in Apply(s, a).tasks
    requires Guarded(s, host, hostRef) && Sheltered(s, rider, riderRef, host, hostRef)
    requires hostRef in Apply(s, a).objects && Apply(s, a).objects[hostRef].profile == s.objects[hostRef].profile
    ensures Away(Apply(s, a), Apply(s, a).tasks[t], host, hostRef)
  {
    hide Enabled, Apply, Away, GivesUp, TaskFits, Safe;
    var s' := Apply(s, a);
    ApplySplits(s, a);
    LeasesStep(s, a);
    if Own(a) != Some(t) {
      OthersUntouched(s, a, t);
      AwayKept(s, s', s.tasks[t], host, hostRef);
    } else {
      NewTaskFits(s, a);
      if OfRequest(a) {
        RequestAway(s, a, host, hostRef);
      } else if OfMigration(a) {
        MigrationAway(s, a, host, hostRef);
      } else {
        RemovalAway(s, a, rider, riderRef, host, hostRef);
      }
      AwayKept(s, s', s'.tasks[t], host, hostRef);
    }
  }

  /** What an action's own coroutine points at next existed before. */
  lemma NewTaskFits(s: Pool, a: Action)
    requires Sound(s) && Enabled(s, a) && Own(a).Some? && a.t in Apply(s, a).tasks
    ensures TaskFits(s, Apply(s, a).tasks[a.t])
  {
    hide Apply;
    ApplySplits(s, a);
    if OfRequest(a) {
      RequestTaskFits(s, a);
    } else if OfMigration(a) {
      MigrationTaskFits(s, a);
    } else {
      RemovalTaskFits(s, a);
    }
  }

  lemma RequestTaskFits(s: Pool, a: Action)
    requires Sound(s) && Enabled(s, a) && OfRequest(a) && a.t in ApplyRequest(s, a).tasks
    ensures TaskFits(s, ApplyRequest(s, a).tasks[a.t])
  {
    hide ApplyRequest, Enabled, Sound, TaskFits;
    if a.Start? || a.Enter? || a.ProbeAlive? || a.ProbeDead? || a.CloseDeadDone? {
      LookupTaskFits(s, a);
    } else {
      TryTaskFits(s, a);
    }
  }

  lemma LookupTaskFits(s: Pool, a: Action)
    requires a.Start? || a.Enter? || a.ProbeAlive? || a.ProbeDead? || a.CloseDeadDone?
    requires Sound(s) && Enabled(s, a) && a.t in ApplyRequest(s, a).tasks
    ensures TaskFits(s, ApplyRequest(s, a).tasks[a.t])
  {
    hide Sound, HasRider, LockFree, FreshSid, ApplyMigration, ApplyRemoval;
    TasksFit(s);
    if a.Enter? || a.ProbeDead? {
      TargetRegistered(s, s.tasks[a.t].job);
    }
  }

  lemma TryTaskFits(s: Pool, a: Action)
    requires a.Acquire? || a.GiveUp? || a.Fail? || a.ReturnLease? || a.Open? || a.Abandon?
    requires Sound(s) && Enabled(s, a) && a.t in ApplyRequest(s, a).tasks
    ensures TaskFits(s, ApplyRequest(s, a).tasks[a.t])
  {
    hide Sound, HasRider, LockFree, FreshSid, ApplyMigration, ApplyRemoval;
    TasksFit(s);
  }

  lemma TargetRegistered(s: Pool, job: Job)
    requires Sound(s) && Target(job).Some?
    ensures Target(job).value in s.sessions ==> s.sessions[Target(job).value] in s.objects
  {
    assert Target(job).value in s.sessions ==> Registered(s, Target(job).value);
  }

  lemma MigrationTaskFits(s: Pool, a: Action)
    requires Sound(s) && Enabled(s, a) && OfMigration(a) && Own(a).Some? && a.t in ApplyMigration(s, a).tasks
    ensures TaskFits(s, ApplyMigration(s, a).tasks[a.t])
  {
    hide HasRider, ApplyRequest, ApplyRemoval;
    if a.MigrateStart? {
      assert At(s, a.sid).sid == a.sid;
    }
  }

  lemma RemovalTaskFits(s: Pool, a: Action)
    requires Sound(s) && Enabled(s, a) && !OfRequest(a) && !OfMigration(a) && Own(a).Some? && a.t in ApplyRemoval(s, a).tasks
    ensures TaskFits(s, ApplyRemoval(s, a).tasks[a.t])
  {
    hide HasRider, ApplyRequest, ApplyMigration;
    if a.ReapStart? {
      forall i | 0 <= i < |a.items| ensures a.items[i].1 in s.objects && s.objects[a.items[i].1].sid == a.items[i].0 {
        assert Registered(s, a.items[i].0) && At(s, a.items[i].0).sid == a.items[i].0;
      }
    }
  }

  /** An object that lost its registry entry never gets one back. */
  lemma {:induction false} UnregisteredStays(s: Pool, actions: seq<Action>, r: Ref)
    requires Sound(s) && IsRun(s, actions) && r in s.objects && forall sid :: sid in s.sessions ==> s.sessions[sid] != r
    ensures forall sid :: sid in After(s, actions).sessions ==> After(s, actions).sessions[sid] != r
    decreases |actions|
  {
    hide Sound, Enabled, Apply;
    if actions != [] {
      var next := Apply(s, actions[0]);
      ObjectStep(s, actions[0], r);
      forall sid | sid in next.sessions ensures next.sessions[sid] != r {
        RegistryStep(s, actions[0], sid);
      }
      if |actions| > 1 {
        UnregisteredStays(next, actions[1..], r);
      }
    }
  }

  ghost predicate NeverGivesUp(s: Pool, actions: seq<Action>, host: Sid)
    requires IsRun(s, actions)
    decreases |actions|
  {
    actions == [] || (!GivesUp(s, actions[0], host) && NeverGivesUp(Apply(s, actions[0]), actions[1..], host))
  }

  /** Over every run, in every interleaving, safe or not: while the rider is registered, the host that owns its
      profile is registered and that profile is leased. */
  lemma {:induction false} GuardedRun(s: Pool, actions: seq<Action>, rider: Sid, riderRef: Ref, host: Sid, hostRef: Ref)
    requires Sound(s) && IsRun(s, actions) && NeverGivesUp(s, actions, host)
    requires Guarded(s, host, hostRef) && Sheltered(s, rider, riderRef, host, hostRef)
    ensures var end := After(s, actions);
            RegisteredAs(end, rider, riderRef)
            ==> Sheltered(end, rider, riderRef, host, hostRef) && IsLeased(end, end.objects[hostRef].profile)
    decreases |actions|
  {
    hide Sound, Enabled, Apply, GivesUp, Away;
    if actions != [] {
      var next := Apply(s, actions[0]);
      StepSound(s, actions[0]);
      ShieldStep(s, actions[0], rider, riderRef, host, hostRef);
      ObjectStep(s, actions[0], riderRef);
      if RegisteredAs(next, rider, riderRef) {
        GuardedRun(next, actions[1..], rider, riderRef, host, hostRef);
      } else {
        RiderGone(s, actions[0], rider, riderRef);
        UnregisteredStays(next, actions[1..], riderRef);
      }
    }
  }

  /** From any state of a safe run in which no reaper pass or migration in progress points at a former owner of
      the host's profile, over every run of sweeps, reaper passes, evictions, kills, requests and migrations. */
  lemma ShieldRun(s: Pool, actions: seq<Action>, rider: Sid, riderRef: Ref, host: Sid, hostRef: Ref)
    requires Inv(s) && IsRun(s, actions) && NeverGivesUp(s, actions, host)
    requires Sheltered(s, rider, riderRef, host, hostRef) && NoStalePointer(s, host, hostRef)
    ensures var end := After(s, actions);
            RegisteredAs(end, rider, riderRef)
            ==> Sheltered(end, rider, riderRef, host, hostRef) && IsLeased(end, end.objects[hostRef].profile)
  {
    hide Locked, DrainingTracked, Ledger, Guarded, NoStalePointer;
    GuardedFromInv(s, rider, riderRef, host, hostRef);
    GuardedRun(s, actions, rider, riderRef, host, hostRef);
  }

  /** The same with stale pointers in progress, over runs of safe actions. */
  lemma {:induction false} SafeShieldRun(s: Pool, actions: seq<Action>, rider: Sid, riderRef: Ref, host: Sid, hostRef: Ref)
    requires Inv(s) && IsRun(s, actions) && SafeRun(s, actions) && NeverGivesUp(s, actions, host)
    requires Sheltered(s, rider, riderRef, host, hostRef)
    ensures var end := After(s, actions);
            RegisteredAs(end, rider, riderRef)
            ==> Sheltered(end, rider, riderRef, host, hostRef) && IsLeased(end, end.objects[hostRef].profile)
    decreases |actions|
  {
    hide Locked, DrainingTracked, Enabled, Apply, Safe, GivesUp, StaleEntry;
    if actions == [] {
      assert LeaseOf(s, AtSession(host)) == Some(s.objects[hostRef].profile);
    } else {
      var next := Apply(s, actions[0]);
      StepExact(s, actions[0]);
      LockedSettles(s, rider, riderRef, host, hostRef);
      SafeEntry(s, actions[0], rider, riderRef, host, hostRef);
      HostStays(s, actions[0], rider, riderRef, host, hostRef);
      ObjectStep(s, actions[0], riderRef);
      ObjectStep(s, actions[0], hostRef);
      if RegisteredAs(next, rider, riderRef) {
        SafeShieldRun(next, actions[1..], rider, riderRef, host, hostRef);
      } else {
        RiderGone(s, actions[0], rider, riderRef);
        UnregisteredStays(next, actions[1..], riderRef);
      }
    }
  }

  lemma SafeEntry(s: Pool, a: Action, rider: Sid, riderRef: Ref, host: Sid, hostRef: Ref)
    requires Sound(s) && Enabled(s, a) && Safe(s, a) && Sheltered(s, rider, riderRef, host, hostRef)
    ensures !StaleEntry(s, a, host, hostRef)
  {
    RiderSeen(s, rider, riderRef, host, hostRef);
    assert LeaseOf(s, AtSession(host)) == Some(s.objects[hostRef].profile);
  }

  lemma RiderGone(s: Pool, a: Action, rider: Sid, riderRef: Ref)
    requires Sound(s) && Enabled(s, a) && RegisteredAs(s, rider, riderRef)
    requires !RegisteredAs(Apply(s, a), rider, riderRef)
    ensures forall sid :: sid in Apply(s, a).sessions ==> Apply(s, a).sessions[sid] != riderRef
  {
    hide Enabled, Apply;
    ObjectStep(s, a, riderRef);
    forall sid | sid in Apply(s, a).sessions ensures Apply(s, a).sessions[sid] != riderRef {
      RegistryStep(s, a, sid);
      assert sid in s.sessions && s.sessions[sid] == riderRef ==> At(s, sid).sid == sid && At(s, rider).sid == rider;
    }
  }

  lemma RetirementFrees(s: Pool, t: Tid, r: Ref)
    requires Inv(s) && t in s.tasks && s.tasks[t] == Retiring(r)
    ensures r in s.objects && s.objects[r].profile < |s.profiles|
    ensures Enabled(s, RetireDone(t)) && Inv(Apply(s, RetireDone(t)))
    ensures Apply(s, RetireDone(t)) == EndTask(ReleaseIfOwned(s, r), t)
  {
    hide Ledger, Locked, DrainingTracked, Sound, TaskFits, ApplyRequest, ApplyRemoval;
    TasksFit(s);
    PointersExist(s, t);
    StepExact(s, RetireDone(t));
  }

  /** The exception is real: migrating a host away frees the profile its riders still stream through. */
  lemma HostMigrationStrandsRider(s: Pool, a: Action, rider: Sid, riderRef: Ref, host: Sid, hostRef: Ref)
    requires Inv(s) && Enabled(s, a) && a.MigrateCommit? && Sheltered(s, rider, riderRef, host, hostRef)
    requires s.tasks[a.t].sid == host && s.tasks[a.t].victim == hostRef
    ensures Safe(s, a) && Inv(Apply(s, a)) && Enabled(Apply(s, a), RetireDone(a.t))
    ensures var end := Apply(Apply(s, a), RetireDone(a.t));
            Inv(end) && RegisteredAs(end, rider, riderRef) && !IsLeased(end, s.objects[riderRef].profile)
  {
    hide Locked, DrainingTracked, Ledger, TaskFits, HasRider, ApplyRequest, ApplyRemoval;
    StepExact(s, a);
    var mid := Apply(s, a);
    ObjectStep(s, a, riderRef);
    ObjectStep(s, a, hostRef);
    assert mid.tasks[a.t] == Retiring(hostRef) && RegisteredAs(mid, rider, riderRef);
    hide Apply, Enabled;
    RetirementFrees(mid, a.t, hostRef);
  }
}
